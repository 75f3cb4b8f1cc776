// The watch application (firmware/watch.c): a state machine driven by the
// 1 ms tick, the button interrupt and the main loop's two tasks. The
// firmware's globals are the fields of the class Watch; each of its
// methods is proved against a function on Snapshot, the value of those
// globals, and the watch's behaviour is proved as lemmas on those
// functions.

module WatchFirmware {
  import opened Hal
  import opened Display
  import opened Leds
  import opened SoftTimer

  /** How long the LEDs stay on without a press. */
  const TIMEOUT_MS: nat := 2500
  /** How long after a press the next press of the same series may come. */
  const NEXT_PRESS_MS: nat := 500
  /** The period of the log task. */
  const LOG_PERIOD_MS: nat := 1000
  /** Each half of one blink_all flash. */
  const BLINK_MS: nat := 200
  /** The largest value of a C int on the watch's 32-bit core. */
  const INT32_MAX: int := 0x7FFF_FFFF

  datatype Option<T> = None | Some(value: T)

  /** The watch states. */
  datatype Mode = Sleep | ShowTime | SetHours | SetMinutes

  /** The firmware's globals: g_ticks, s_state, s_timeout,
      s_time_in_millis_at_boot (the offset), s_next_press_timeout,
      s_press_count, led_task's saved_press_count, and the levels of the 16
      LEDs in mask order. (log_task's timer is kept apart: nothing else
      reads it.) */
  datatype Snapshot = Snapshot(
    ticks: nat, mode: Mode, timeout: nat, offset: nat,
    nextPressTimeout: nat, pressCount: nat, savedPressCount: nat,
    leds: seq<bool>)

  // ---------------------------------------------------------------------
  // Setting the clock
  // ---------------------------------------------------------------------

  /** SET_HOURS: the offset becomes `count` whole hours plus the minutes,
      seconds and milliseconds it had. */
  function HoursOffset(offset: nat, count: nat): nat
  {
    count * HOUR_MS + offset % HOUR_MS
  }

  /** SET_MINUTES: the offset keeps its whole hours and gets `count`
      minutes. */
  function MinutesOffset(offset: nat, count: nat): nat
  {
    (offset / HOUR_MS) * HOUR_MS + count * MINUTE_MS
  }

  /** The SET_HOURS update as the firmware writes it: s_press_count *
      3600000 is a product of two ints, undefined (here None) once it
      exceeds INT32_MAX. */
  function HoursOffsetAsWritten(offset: nat, count: nat): (r: Option<nat>)
    ensures r.Some? <==> count <= 596
    ensures r.Some? ==> r.value == HoursOffset(offset, count)
  {
    if count * 3600000 > INT32_MAX then None else Some(HoursOffset(offset, count))
  }

  /** The SET_MINUTES update as the firmware writes it: s_press_count *
      60000 overflows an int once the count passes 35791. */
  function MinutesOffsetAsWritten(offset: nat, count: nat): (r: Option<nat>)
    ensures r.Some? <==> count <= 35791
    ensures r.Some? ==> r.value == MinutesOffset(offset, count)
  {
    if count * 60000 > INT32_MAX then None else Some(MinutesOffset(offset, count))
  }

  /** The 597th press while setting hours overflows the int product; one
      press fewer does not. */
  lemma HoursOffsetOverflowsAt597(offset: nat)
    ensures HoursOffsetAsWritten(offset, 596) == Some(HoursOffset(offset, 596))
    ensures HoursOffsetAsWritten(offset, 597) == None
  {
  }

  /** The 35792nd press while setting minutes overflows the int product. */
  lemma MinutesOffsetOverflowsAt35792(offset: nat)
    ensures MinutesOffsetAsWritten(offset, 35791) == Some(MinutesOffset(offset, 35791))
    ensures MinutesOffsetAsWritten(offset, 35792) == None
  {
  }

  /** The hour of the day is the whole hours of the offset, modulo 24. */
  lemma HoursByHour(ms: nat)
    ensures Hours(ms) == (ms / HOUR_MS) % 24
  {
    TimeOfDay(ms);
    ModOfDiv(ms, HOUR_MS, 24);
  }

  /** After SET_HOURS the offset (the time of day at boot) is at hour
      count mod 24, with the minute it had. */
  lemma {:induction false} HoursOffsetSetsHour(offset: nat, count: nat)
    ensures Hours(HoursOffset(offset, count)) == count % 24
    ensures Minutes(HoursOffset(offset, count)) == Minutes(offset)
  {
    var ms := HoursOffset(offset, count);
    var r := offset % HOUR_MS;
    assert ms == count * HOUR_MS + r;
    DivUnique(ms, HOUR_MS, count, r);
    HoursByHour(ms);
    TimeOfDay(ms);
    TimeOfDay(offset);
    DivUnique(r, MINUTE_MS, r / MINUTE_MS, r % MINUTE_MS);
    DivBound(r, MINUTE_MS, 60);
    assert ms == (count * 60 + r / MINUTE_MS) * MINUTE_MS + r % MINUTE_MS;
    DivUnique(ms, MINUTE_MS, count * 60 + r / MINUTE_MS, r % MINUTE_MS);
    DivUnique(ms / MINUTE_MS, 60, count, r / MINUTE_MS);
    assert offset == ((offset / HOUR_MS) * 60 + r / MINUTE_MS) * MINUTE_MS + r % MINUTE_MS;
    DivUnique(offset, MINUTE_MS, (offset / HOUR_MS) * 60 + r / MINUTE_MS, r % MINUTE_MS);
    DivUnique(offset / MINUTE_MS, 60, offset / HOUR_MS, r / MINUTE_MS);
  }

  /** After SET_MINUTES the offset is at minute count mod 60; its hour is
      the one it had, plus the whole hours in `count` minutes. */
  lemma {:induction false} MinutesOffsetSetsMinute(offset: nat, count: nat)
    ensures Minutes(MinutesOffset(offset, count)) == count % 60
    ensures Hours(MinutesOffset(offset, count)) == (offset / HOUR_MS + count / 60) % 24
  {
    var ms := MinutesOffset(offset, count);
    var h := offset / HOUR_MS;
    assert ms == (h * 60 + count) * MINUTE_MS;
    DivUnique(ms, MINUTE_MS, h * 60 + count, 0);
    DivUnique(ms / MINUTE_MS, 60, h + count / 60, count % 60);
    TimeOfDay(ms);
    assert ms == (h + count / 60) * HOUR_MS + (count % 60) * MINUTE_MS;
    DivUnique(ms, HOUR_MS, h + count / 60, (count % 60) * MINUTE_MS);
    HoursByHour(ms);
  }

  /** With fewer than 60 presses SET_MINUTES leaves the offset's hour
      alone. */
  lemma MinutesOffsetKeepsHour(offset: nat, count: nat)
    requires count < 60
    ensures Hours(MinutesOffset(offset, count)) == Hours(offset)
  {
    MinutesOffsetSetsMinute(offset, count);
    HoursByHour(offset);
  }

  /** The time shown is ticks plus the offset, so SET_HOURS sets the hour
      of the time at boot, not of the time shown: the uptime's whole hours
      are added to the count. */
  lemma {:induction false} HoursShownAfterSetting(ticks: nat, offset: nat, count: nat)
    requires offset % HOUR_MS == 0
    ensures Hours(ticks + HoursOffset(offset, count)) == (ticks / HOUR_MS + count) % 24
  {
    var ms := ticks + HoursOffset(offset, count);
    assert ms == (ticks / HOUR_MS + count) * HOUR_MS + ticks % HOUR_MS;
    DivUnique(ms, HOUR_MS, ticks / HOUR_MS + count, ticks % HOUR_MS);
    HoursByHour(ms);
  }

  /** Five hours after boot, setting the hour to 3 makes the watch show 8. */
  lemma HoursShownAfterFiveHours()
    ensures Hours(5 * HOUR_MS + HoursOffset(0, 3)) == 8
  {
    HoursShownAfterSetting(5 * HOUR_MS, 0, 3);
  }

  // ---------------------------------------------------------------------
  // The state machine, on values
  // ---------------------------------------------------------------------

  /** The firmware's state is well formed: 16 LED levels, and asleep the
      watch is dark and has no saved press count. */
  predicate Consistent(s: Snapshot)
  {
    |s.leds| == NumLeds && (s.mode == Sleep ==> s.leds == Levels(0) && s.savedPressCount == 0)
  }

  /** setup(): the globals' static initial values, with every LED written
      off. */
  function Boot(): (s: Snapshot)
    ensures Consistent(s) && s.mode == Sleep && s.ticks == 0 && s.pressCount == 0
  {
    Snapshot(0, Sleep, 0, 0, 0, 0, 0, Levels(0))
  }

  /** SysTick_Handler: one more millisecond. */
  function Tick(s: Snapshot): Snapshot
  {
    s.(ticks := s.ticks + 1)
  }

  /** EXTI2_IRQHandler: one more press, and the next one is expected within
      NEXT_PRESS_MS. */
  function Press(s: Snapshot): Snapshot
  {
    s.(nextPressTimeout := s.ticks + NEXT_PRESS_MS, pressCount := s.pressCount + 1)
  }

  /** blink_all(n) with the unix delay_ms, which advances the tick count
      itself: n flashes of 400 ms, after which every LED is off. */
  function Blink(s: Snapshot, n: nat): Snapshot
  {
    if n == 0 then s else s.(ticks := s.ticks + 2 * BLINK_MS * n, leds := Levels(0))
  }

  /** One press: show the time of day, ticks plus offset, until the
      timeout. */
  function StartShowTime(s: Snapshot): Snapshot
  {
    var now := s.ticks + s.offset;
    s.(mode := ShowTime, timeout := s.ticks + TIMEOUT_MS,
       leds := Levels(LedMask(Hours(now), Minutes(now))), pressCount := 0)
  }

  /** Three or four presses: blink, then enter the setting state with the
      timeout counted from after the blinking. */
  function StartSetting(s: Snapshot, blinks: nat, m: Mode): Snapshot
  {
    var b := Blink(s, blinks);
    b.(mode := m, timeout := b.ticks + TIMEOUT_MS, pressCount := 0)
  }

  /** The end of a press series while asleep: one press shows the time,
      four presses blink twice and set minutes, three presses blink once
      and set hours; any other count is dropped. */
  function EndOfSeries(s: Snapshot): Snapshot
  {
    if s.pressCount == 1 then StartShowTime(s)
    else if s.pressCount == 4 then StartSetting(s, 2, SetMinutes)
    else if s.pressCount == 3 then StartSetting(s, 1, SetHours)
    else s.(pressCount := 0)
  }

  /** The state-dependent part of led_task. */
  function Dispatch(s: Snapshot): Snapshot
  {
    match s.mode
    case Sleep =>
      if s.pressCount > 0 && s.ticks > s.nextPressTimeout then EndOfSeries(s) else s
    case ShowTime => s
    case SetMinutes =>
      if s.savedPressCount != s.pressCount then
        s.(offset := MinutesOffset(s.offset, s.pressCount), leds := Levels(LedMask(0, s.pressCount)),
           timeout := s.ticks + TIMEOUT_MS, savedPressCount := s.pressCount)
      else s
    case SetHours =>
      if s.savedPressCount != s.pressCount then
        s.(offset := HoursOffset(s.offset, s.pressCount), leds := Levels(LedMask(s.pressCount, 0)),
           timeout := s.ticks + TIMEOUT_MS, savedPressCount := s.pressCount)
      else s
  }

  /** The end of led_task: awake past the timeout, go dark and to sleep. */
  function Expire(s: Snapshot): Snapshot
  {
    if s.mode != Sleep && s.ticks > s.timeout then
      s.(leds := Levels(0), mode := Sleep, pressCount := 0, savedPressCount := 0)
    else s
  }

  /** led_task. */
  function LedStep(s: Snapshot): Snapshot
  {
    Expire(Dispatch(s))
  }

  // ---------------------------------------------------------------------
  // Properties of the state machine
  // ---------------------------------------------------------------------

  /** Every step of the firmware keeps its state well formed: asleep, the
      LEDs are off and nothing is saved. */
  lemma StepsKeepConsistent(s: Snapshot)
    requires Consistent(s)
    ensures Consistent(LedStep(s))
    ensures Consistent(Tick(s)) && Consistent(Press(s))
  {
  }

  /** led_task run twice with no tick and no press in between does nothing
      the second time. */
  lemma LedStepIdempotent(s: Snapshot)
    requires Consistent(s)
    ensures LedStep(LedStep(s)) == LedStep(s)
  {
    var d := Dispatch(s);
    if d != s {
      assert d.mode != Sleep ==> d.ticks < d.timeout;
      assert d.mode == Sleep ==> d.pressCount == 0;
      assert Dispatch(d) == d;
    }
  }

  /** Asleep, led_task waits until NEXT_PRESS_MS have passed since the last
      press of a series. */
  lemma SleepWaitsForSeries(s: Snapshot)
    requires s.mode == Sleep && (s.pressCount == 0 || s.ticks <= s.nextPressTimeout)
    ensures LedStep(s) == s
  {
  }

  /** At the end of a series the press count chooses the state (1: show
      the time, 3: set hours, 4: set minutes, anything else: stay asleep),
      and the count starts again from 0. */
  lemma SeriesSelectsMode(s: Snapshot)
    requires s.mode == Sleep && s.pressCount > 0 && s.ticks > s.nextPressTimeout
    ensures LedStep(s).pressCount == 0
    ensures LedStep(s).mode == ShowTime <==> s.pressCount == 1
    ensures LedStep(s).mode == SetHours <==> s.pressCount == 3
    ensures LedStep(s).mode == SetMinutes <==> s.pressCount == 4
    ensures s.pressCount !in {1, 3, 4} ==> LedStep(s) == s.(pressCount := 0)
  {
  }

  /** A single press shows the time of day, ticks plus offset, for
      TIMEOUT_MS. */
  lemma SinglePressShowsTime(s: Snapshot)
    requires s.mode == Sleep && s.pressCount == 1 && s.ticks > s.nextPressTimeout
    ensures var t := LedStep(s);
            var now := s.ticks + s.offset;
            t.leds == Levels(LedMask(Hours(now), Minutes(now))) &&
            t.ticks == s.ticks && t.timeout == s.ticks + TIMEOUT_MS && t.offset == s.offset
  {
    var t := StartShowTime(s);
    assert EndOfSeries(s) == t;
    assert Dispatch(s) == t;
    assert Expire(t) == t;
  }

  /** Reading the LEDs back after a single press gives the mask of the time
      shown. */
  lemma SinglePressReadsBackTime(s: Snapshot)
    requires s.mode == Sleep && s.pressCount == 1 && s.ticks > s.nextPressTimeout
    ensures MaskOf(LedStep(s).leds) == LedMask(Hours(s.ticks + s.offset), Minutes(s.ticks + s.offset))
  {
    SinglePressShowsTime(s);
    MaskOfLevels(LedMask(Hours(s.ticks + s.offset), Minutes(s.ticks + s.offset)));
  }

  /** Three or four presses blink once or twice (400 ms each, LEDs off at
      the end) and start the timeout after the blinking. */
  lemma SettingStartsAfterBlink(s: Snapshot)
    requires s.mode == Sleep && s.pressCount in {3, 4} && s.ticks > s.nextPressTimeout
    ensures var t := LedStep(s);
            t.ticks == s.ticks + (if s.pressCount == 4 then 800 else 400) &&
            t.leds == Levels(0) && t.timeout == t.ticks + TIMEOUT_MS &&
            t.offset == s.offset && t.savedPressCount == s.savedPressCount
  {
  }

  /** While the time is shown, presses change nothing, not even the
      timeout; once the timeout has passed the watch goes dark and to
      sleep. */
  lemma ShowTimeIgnoresPresses(s: Snapshot)
    requires s.mode == ShowTime
    ensures s.ticks <= s.timeout ==> LedStep(s) == s
    ensures s.ticks > s.timeout ==> LedStep(s) == s.(leds := Levels(0), mode := Sleep, pressCount := 0, savedPressCount := 0)
  {
  }

  /** Each new press while setting hours sets the offset's hour to count
      mod 24 (its minute kept), shows that hour and restarts the timeout. */
  lemma SetHoursPress(s: Snapshot)
    requires s.mode == SetHours && s.savedPressCount != s.pressCount
    ensures var t := LedStep(s);
            t.mode == SetHours && Hours(t.offset) == s.pressCount % 24 &&
            Minutes(t.offset) == Minutes(s.offset) &&
            t.leds == Levels(LedMask(s.pressCount, 0)) &&
            t.timeout == s.ticks + TIMEOUT_MS && t.savedPressCount == s.pressCount &&
            t.pressCount == s.pressCount && t.ticks == s.ticks
  {
    HoursOffsetSetsHour(s.offset, s.pressCount);
  }

  /** Each new press while setting minutes sets the offset's minute to
      count mod 60, shows that minute and restarts the timeout; with fewer
      than 60 presses the offset's hour is kept. */
  lemma SetMinutesPress(s: Snapshot)
    requires s.mode == SetMinutes && s.savedPressCount != s.pressCount
    ensures var t := LedStep(s);
            t.mode == SetMinutes && Minutes(t.offset) == s.pressCount % 60 &&
            (s.pressCount < 60 ==> Hours(t.offset) == Hours(s.offset)) &&
            t.leds == Levels(LedMask(0, s.pressCount)) &&
            t.timeout == s.ticks + TIMEOUT_MS && t.savedPressCount == s.pressCount &&
            t.pressCount == s.pressCount && t.ticks == s.ticks
  {
    MinutesOffsetSetsMinute(s.offset, s.pressCount);
    if s.pressCount < 60 {
      MinutesOffsetKeepsHour(s.offset, s.pressCount);
    }
  }

  /** Setting without a new press: nothing happens until the timeout, and
      then the watch goes dark and to sleep with the offset as set. */
  lemma SettingTimesOut(s: Snapshot)
    requires s.mode in {SetHours, SetMinutes} && s.savedPressCount == s.pressCount
    ensures s.ticks <= s.timeout ==> LedStep(s) == s
    ensures s.ticks > s.timeout ==> LedStep(s) == s.(leds := Levels(0), mode := Sleep, pressCount := 0, savedPressCount := 0)
  {
  }

  /** A state entered by led_task is not left by the same call: the
      timeout check at its end lets it stand. */
  lemma EnteredStateStands(s: Snapshot)
    requires Dispatch(s).mode != s.mode
    ensures LedStep(s) == Dispatch(s)
  {
  }

  /** Only a new press in a setting mode changes the offset: no
      other led_task branch, and neither handler, writes it. */
  lemma OffsetOnlySetWhileSetting(s: Snapshot)
    ensures LedStep(s).offset != s.offset ==> s.mode in {SetHours, SetMinutes} && s.savedPressCount != s.pressCount
    ensures Tick(s).offset == s.offset && Press(s).offset == s.offset
  {
  }

  /** After led_task the watch is never awake past its timeout. */
  lemma AwakeOnlyBeforeTimeout(s: Snapshot)
    ensures LedStep(s).mode != Sleep ==> LedStep(s).ticks <= LedStep(s).timeout
  {
  }

  // ---------------------------------------------------------------------
  // The firmware
  // ---------------------------------------------------------------------

  /** The button: PIN('A', 2). */
  const BTN_PIN: Pin := MakePin('A', 2)

  /** The firmware's globals and the handlers and tasks that update them.
      The LEDs are the 16 outputs of s_leds, LED i at index i. */
  class Watch {
    var ticks: nat
    var mode: Mode
    var timeout: nat
    var offset: nat
    var nextPressTimeout: nat
    var pressCount: nat
    var savedPressCount: nat
    var logTimer: nat
    var extiPr1: bv32
    const leds: array<bool>

    ghost predicate Valid()
      reads this
    {
      leds.Length == NumLeds
    }

    /** The state the handlers and tasks are specified on. */
    function State(): Snapshot
      reads this, leds
    {
      Snapshot(ticks, mode, timeout, offset, nextPressTimeout, pressCount, savedPressCount, leds[..])
    }

    /** The static initial values of the globals, followed by setup()'s
        loop writing every LED off. */
    constructor Setup()
      ensures Valid() && fresh(leds)
      ensures State() == Boot() && logTimer == 0 && extiPr1 == 0
    {
      ticks, mode, timeout, offset := 0, Sleep, 0, 0;
      nextPressTimeout, pressCount, savedPressCount := 0, 0, 0;
      logTimer, extiPr1 := 0, 0;
      leds := new bool[NumLeds];
      new;
      SetLeds(0);
    }

    /** set_leds(mask): LED i is written bit i of the mask. */
    method SetLeds(mask: bv16)
      requires Valid()
      modifies leds
      ensures leds[..] == Levels(mask)
    {
      for i := 0 to NumLeds
        invariant forall j :: 0 <= j < i ==> leds[j] == MaskBit(mask, Bit8(j))
      {
        leds[i] := MaskBit(mask, Bit8(i));
      }
    }

    /** SysTick_Handler. */
    method SysTick()
      modifies this
      ensures State() == Tick(old(State()))
      ensures logTimer == old(logTimer) && extiPr1 == old(extiPr1)
    {
      ticks := ticks + 1;
    }

    /** EXTI2_IRQHandler: acknowledge the button's interrupt line, expect
        the next press within NEXT_PRESS_MS, count the press. */
    method ButtonIrq()
      modifies this
      ensures extiPr1 == Bit(2)
      ensures State() == Press(old(State())) && logTimer == old(logTimer)
    {
      var n := PinNo(BTN_PIN);
      extiPr1 := Bit(n as nat);
      nextPressTimeout := ticks + NEXT_PRESS_MS;
      pressCount := pressCount + 1;
    }

    /** The unix delay_ms: the waited time passes at once. */
    method DelayMs(ms: nat)
      modifies this
      ensures State() == old(State()).(ticks := old(ticks) + ms)
      ensures logTimer == old(logTimer) && extiPr1 == old(extiPr1)
    {
      ticks := ticks + ms;
    }

    /** blink_all(n): n times all LEDs on for 200 ms, then off for 200 ms. */
    method BlinkAll(n: nat)
      requires Valid()
      modifies this, leds
      ensures State() == Blink(old(State()), n)
      ensures logTimer == old(logTimer) && extiPr1 == old(extiPr1)
    {
      for i := 0 to n
        invariant State() == Blink(old(State()), i)
        invariant logTimer == old(logTimer) && extiPr1 == old(extiPr1)
      {
        SetLeds(0xFFFF);
        DelayMs(BLINK_MS);
        SetLeds(0);
        DelayMs(BLINK_MS);
      }
    }

    /** The SLEEP branch of led_task for a single press. The mask of the
        time is computed first; it depends only on ticks and offset, which
        the branch does not change. */
    method ShowTimeOfDay()
      requires Valid()
      modifies this, leds
      ensures State() == StartShowTime(old(State()))
      ensures logTimer == old(logTimer) && extiPr1 == old(extiPr1)
    {
      ghost var s := State();
      var now := ticks + offset;
      var mask := TimeToLedMask(Hours(now), Minutes(now));
      Show(ShowTime, mask);
      assert State() == s.(mode := ShowTime, timeout := s.ticks + TIMEOUT_MS, leds := Levels(mask), pressCount := 0);
    }

    /** set_state(m), a new timeout, set_leds(mask), and the press count
        reset. */
    method Show(m: Mode, mask: bv16)
      requires Valid()
      modifies this, leds
      ensures State() == old(State()).(mode := m, timeout := old(ticks) + TIMEOUT_MS, leds := Levels(mask), pressCount := 0)
      ensures logTimer == old(logTimer) && extiPr1 == old(extiPr1)
    {
      mode := m;
      timeout := ticks + TIMEOUT_MS;
      SetLeds(mask);
      pressCount := 0;
    }

    /** The SLEEP branch of led_task for three or four presses. */
    method EnterSetting(blinks: nat, m: Mode)
      requires Valid()
      modifies this, leds
      ensures State() == StartSetting(old(State()), blinks, m)
      ensures logTimer == old(logTimer) && extiPr1 == old(extiPr1)
    {
      BlinkAll(blinks);
      mode := m;
      timeout := ticks + TIMEOUT_MS;
      pressCount := 0;
    }

    /** The end of a press series while asleep (the SLEEP branch of
        led_task once NEXT_PRESS_MS have passed). */
    method EndSeries()
      requires Valid()
      modifies this, leds
      ensures State() == EndOfSeries(old(State()))
      ensures logTimer == old(logTimer) && extiPr1 == old(extiPr1)
    {
      if pressCount == 1 {
        ShowTimeOfDay();
      } else if pressCount == 4 {
        EnterSetting(2, SetMinutes);
      } else if pressCount == 3 {
        EnterSetting(1, SetHours);
      } else {
        pressCount := 0;
      }
    }

    /** The SET_MINUTES branch of led_task on a new press. */
    method ApplyMinutes()
      requires Valid() && mode == SetMinutes && savedPressCount != pressCount
      modifies this, leds
      ensures State() == Dispatch(old(State()))
      ensures logTimer == old(logTimer) && extiPr1 == old(extiPr1)
    {
      offset := MinutesOffset(offset, pressCount);
      var mask := TimeToLedMask(0, pressCount);
      SetLeds(mask);
      timeout := ticks + TIMEOUT_MS;
      savedPressCount := pressCount;
    }

    /** The SET_HOURS branch of led_task on a new press. */
    method ApplyHours()
      requires Valid() && mode == SetHours && savedPressCount != pressCount
      modifies this, leds
      ensures State() == Dispatch(old(State()))
      ensures logTimer == old(logTimer) && extiPr1 == old(extiPr1)
    {
      offset := HoursOffset(offset, pressCount);
      var mask := TimeToLedMask(pressCount, 0);
      SetLeds(mask);
      timeout := ticks + TIMEOUT_MS;
      savedPressCount := pressCount;
    }

    /** The end of led_task: on timeout in any state, sleep. */
    method SleepOnTimeout()
      requires Valid()
      modifies this, leds
      ensures State() == Expire(old(State()))
      ensures logTimer == old(logTimer) && extiPr1 == old(extiPr1)
    {
      if mode != Sleep && ticks > timeout {
        SetLeds(0);
        mode := Sleep;
        pressCount := 0;
        savedPressCount := 0;
      }
    }

    /** led_task. */
    method LedTask()
      requires Valid()
      modifies this, leds
      ensures State() == LedStep(old(State()))
      ensures logTimer == old(logTimer) && extiPr1 == old(extiPr1)
    {
      if mode == Sleep {
        if pressCount > 0 && ticks > nextPressTimeout {
          EndSeries();
        }
      } else if mode == ShowTime {
      } else if mode == SetMinutes {
        if savedPressCount != pressCount {
          ApplyMinutes();
        }
      } else if mode == SetHours {
        if savedPressCount != pressCount {
          ApplyHours();
        }
      }
      SleepOnTimeout();
    }

    /** log_task: poll the log timer; `logged` says whether the (unmodelled)
        log line is printed. */
    method LogTask() returns (logged: bool)
      modifies this
      ensures logged == Expired(old(logTimer), LOG_PERIOD_MS, old(ticks)).fired
      ensures logTimer == Expired(old(logTimer), LOG_PERIOD_MS, old(ticks)).expiration
      ensures State() == old(State()) && extiPr1 == old(extiPr1)
    {
      logged, logTimer := TimerExpiredCorrected(logTimer, LOG_PERIOD_MS, ticks);
    }

    /** loop(): log_task, then led_task. */
    method Loop()
      requires Valid()
      modifies this, leds
      ensures State() == LedStep(old(State()))
      ensures logTimer == Expired(old(logTimer), LOG_PERIOD_MS, old(ticks)).expiration
      ensures extiPr1 == old(extiPr1)
    {
      var _ := LogTask();
      LedTask();
    }
  }
}
