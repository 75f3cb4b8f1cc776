// The earlier one-LED firmware (firmware/main.c): a button press lights
// the first LED for LED_SHOW_DURATION_MS, and led_task turns it off once
// that time has passed.

module Blinker {
  import opened Hal
  import opened Leds
  import opened SoftTimer

  /** How long the LED stays on after a press. */
  const LED_SHOW_DURATION_MS: nat := 2500
  /** The period of the log task. */
  const LOG_PERIOD_MS: nat := 1000

  /** s_ticks, s_button_press_timeout, led_task's `on`, and the levels of
      the 16 LEDs in mask order. */
  datatype Lamp = Lamp(ticks: nat, pressTimeout: nat, on: bool, leds: seq<bool>)

  /** The state main() sets up and led_task keeps: `on` is the level of
      LED 0, and every other LED is off. */
  predicate Lit(s: Lamp)
  {
    |s.leds| == NumLeds && s.leds[0] == s.on && forall i :: 1 <= i < NumLeds ==> !s.leds[i]
  }

  /** main()'s start: the static initial values, every LED written off. */
  function Start(): (s: Lamp)
    ensures Lit(s) && !s.on
  {
    LevelsOfZero();
    Lamp(0, 0, false, Levels(0))
  }

  /** SysTick_Handler. */
  function Tick(s: Lamp): Lamp
  {
    s.(ticks := s.ticks + 1)
  }

  /** EXTI2_IRQHandler: the LED is to stay on until LED_SHOW_DURATION_MS
      from now. */
  function Press(s: Lamp): Lamp
  {
    s.(pressTimeout := s.ticks + LED_SHOW_DURATION_MS)
  }

  /** The first half of led_task: off while a press is active, light LED 0. */
  function TurnOn(s: Lamp): Lamp
    requires |s.leds| == NumLeds
  {
    if !s.on && s.pressTimeout > s.ticks then s.(on := true, leds := s.leds[0 := true]) else s
  }

  /** The second half of led_task: on after the press has expired, turn LED
      0 off. */
  function TurnOff(s: Lamp): Lamp
    requires |s.leds| == NumLeds
  {
    if s.on && s.pressTimeout < s.ticks then s.(on := false, leds := s.leds[0 := false]) else s
  }

  /** led_task. */
  function LampStep(s: Lamp): Lamp
    requires |s.leds| == NumLeds
  {
    TurnOff(TurnOn(s))
  }

  /** Every step keeps `on` equal to LED 0 and the other LEDs off. */
  lemma StepsKeepLit(s: Lamp)
    requires Lit(s)
    ensures Lit(LampStep(s)) && Lit(Tick(s)) && Lit(Press(s))
  {
  }

  /** After led_task the LED is on while the press is active, off once it
      has expired, and unchanged at the very tick it expires. */
  lemma LampFollowsPress(s: Lamp)
    requires Lit(s)
    ensures s.pressTimeout > s.ticks ==> LampStep(s).on
    ensures s.pressTimeout < s.ticks ==> !LampStep(s).on
    ensures s.pressTimeout == s.ticks ==> LampStep(s) == s
  {
  }

  /** One led_task call never both lights and darkens the LED: at most one
      of its two branches changes the state. */
  lemma OneBranchPerStep(s: Lamp)
    requires |s.leds| == NumLeds
    ensures TurnOn(s) == s || TurnOff(TurnOn(s)) == TurnOn(s)
  {
  }

  /** led_task run twice with no tick and no press in between does nothing
      the second time. */
  lemma LampStepIdempotent(s: Lamp)
    requires |s.leds| == NumLeds
    ensures LampStep(LampStep(s)) == LampStep(s)
  {
  }

  /** A press lights the LED at the next led_task and it stays lit for
      LED_SHOW_DURATION_MS ticks after the press. */
  lemma PressLightsForDuration(s: Lamp, d: nat)
    requires Lit(s) && d < LED_SHOW_DURATION_MS
    ensures LampStep(Press(s)).on
    ensures LampStep(Press(s).(ticks := s.ticks + d)).on
  {
  }

  /** The firmware's globals and its handlers and tasks. */
  class Board {
    var ticks: nat
    var pressTimeout: nat
    var on: bool
    var logTimer: nat
    var extiPr1: bv32
    const leds: array<bool>

    ghost predicate Valid()
      reads this
    {
      leds.Length == NumLeds
    }

    function State(): Lamp
      reads this, leds
    {
      Lamp(ticks, pressTimeout, on, leds[..])
    }

    /** The static initial values and main()'s loop writing every LED
        off. */
    constructor Setup()
      ensures Valid() && fresh(leds)
      ensures State() == Start() && logTimer == 0 && extiPr1 == 0
    {
      ticks, pressTimeout, on, logTimer, extiPr1 := 0, 0, false, 0, 0;
      var a := new bool[NumLeds];
      for i := 0 to NumLeds
        invariant forall j :: 0 <= j < i ==> !a[j]
      {
        a[i] := false;
      }
      LevelsOfZero();
      assert a[..] == seq(NumLeds, _ => false);
      leds := a;
    }

    /** SysTick_Handler. */
    method SysTick()
      modifies this
      ensures State() == Tick(old(State()))
      ensures logTimer == old(logTimer) && extiPr1 == old(extiPr1)
    {
      ticks := ticks + 1;
    }

    /** EXTI2_IRQHandler: acknowledge the button's interrupt line and
        start the LED's show time. */
    method ButtonIrq()
      modifies this
      ensures extiPr1 == Bit(2)
      ensures State() == Press(old(State())) && logTimer == old(logTimer)
    {
      var n := PinNo(MakePin('A', 2));
      extiPr1 := Bit(n as nat);
      pressTimeout := ticks + LED_SHOW_DURATION_MS;
    }

    /** led_task. */
    method LedTask()
      requires Valid()
      modifies this, leds
      ensures State() == LampStep(old(State()))
      ensures logTimer == old(logTimer) && extiPr1 == old(extiPr1)
    {
      if on == false && pressTimeout > ticks {
        leds[0] := true;
        on := true;
      }
      if on == true && pressTimeout < ticks {
        leds[0] := false;
        on := false;
      }
    }

    /** log_task: poll the log timer; `logged` says whether the (unmodelled)
        log line is printed. */
    method LogTask() returns (logged: bool)
      modifies this
      ensures logged == Expired(old(logTimer), LOG_PERIOD_MS, old(ticks)).fired
      ensures logTimer == Expired(old(logTimer), LOG_PERIOD_MS, old(ticks)).expiration
      ensures State() == old(State()) && extiPr1 == old(extiPr1)
    {
      logged, logTimer := TimerExpiredCorrected(logTimer, LOG_PERIOD_MS, ticks);
    }

    /** One pass of main()'s endless loop: led_task, then log_task. */
    method Iterate()
      requires Valid()
      modifies this, leds
      ensures State() == LampStep(old(State()))
      ensures logTimer == Expired(old(logTimer), LOG_PERIOD_MS, old(ticks)).expiration
      ensures extiPr1 == old(extiPr1)
    {
      LedTask();
      var _ := LogTask();
    }
  }
}
