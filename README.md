# Watch firmware, modelled in Dafny

This project models the firmware of a 16-LED binary watch. The watch sleeps until its button is pressed.

- After a series of clicks ends, it acts on the count:
  - **one click** shows the time of day as four binary-coded decimal digits, one digit per LED column;
  - **three clicks** blink the LEDs once and enter hour setting;
  - **four clicks** blink twice and enter minute setting.
- While the watch is setting, each further click changes the offset and shows the count. In hour setting the offset's hour becomes the count mod 24. In minute setting its minute becomes the count mod 60, and a count of 60 or more carries count / 60 into the hour.
- The watch goes back to sleep 2.5 s after its last activity.
- The time shown is the millisecond tick count plus that offset, `s_time_in_millis_at_boot`, the time of day at boot. Setting the hours therefore sets the hour at boot: after 5 hours of uptime, setting 3 hours shows 8 o'clock (`WatchFirmware.HoursShownAfterFiveHours`).

The model covers:

- the mode machine of `firmware/watch.c`, and its pure helpers `time_to_led_mask`, `hours` and `minutes`;
- the soft timer `timer_expired`, common to both HALs;
- the pin macros, `BIT`, `CLRSET` and the field arithmetic of `gpio_init` from the STM32 HAL;
- the simulated pin board of the unix HAL, on which the unit test runs;
- the earlier one-LED firmware in `firmware/main.c`.

Modules:

- `Display` (display.dfy):
  - `hours`, `minutes` and `time_to_led_mask`;
  - the encoding as a reference layout plus bit-level lemmas;
  - the nested-loop method proved equal to it.
- `Leds` (leds.dfy):
  - the LED pin table;
  - `set_leds` as the levels of a mask;
  - the unit test's `get_led_mask` as the inverse of those levels.
- `Hal` (hal.dfy): `PIN`/`PINNO`/`PINBANK`, `BIT`, `CLRSET` and the `gpio_init` field arithmetic.
- `SoftTimer` (soft_timer.dfy): `timer_expired`, both as written and corrected.
- `UnixBoard` (unix_board.dfy):
  - `g_pins` with `gpio_read`/`gpio_write`, as a class over a flat array;
  - the row-major cell arithmetic;
  - `set_leds`/`get_led_mask` on that board.
- `WatchFirmware` (watch.dfy):
  - the watch's globals as a value (`Snapshot`);
  - each handler and task as a function on it, with lemmas about those functions;
  - the class `Watch`, holding the globals as fields and the LEDs as an array, whose methods are proved against those functions.
- `Blinker` (blinker.dfy): the same structure for `firmware/main.c`.
- `Scenarios` (scenarios.dfy): the walk of `unit_test.c`'s `main()`.
  - It is replayed as lemmas on the state machine.
  - It is also replayed as a method that drives a `Watch` object.

Integers are unbounded: ticks, timeouts and the offset are `nat`, where the firmware has `uint64_t`. LED masks are `bv16` and register values are `bv32`. A digit stored in a `uint8_t` is reduced modulo 256.

## Model

| member | source | states |
|---|---|---|
| Display.Hours | firmware/watch.c:82-84 | the hour of `hours()` is below 24 |
| Display.Minutes | firmware/watch.c:86-88 | the minute of `minutes()` is below 60 |
| Display.TimeOfDay | firmware/watch.c:82-88 | hours(ms) = (ms mod 86400000) / 3600000 and minutes(ms) = (ms / 60000) mod 60, the closed forms of the nested divisions |
| Display.Digits | firmware/watch.c:71 | four digit bytes, hour tens, hour ones, minute tens and minute ones; `LedMaskLowNibble` states what their uint8_t truncation does to the mask |
| Display.LedMask | firmware/watch.c:70-80 | `time_to_led_mask` as a function. Its properties are in `DigitsMaskBits`, `DigitsMaskLayout` and `LedMaskExamples`, and `TimeToLedMask` is proved equal to it |
| Display.TimeToLedMask | firmware/watch.c:70-80 | the nested column and row loops, over the four uint8_t digits, return `LedMask(hours, minutes)` |
| Display.DigitsMaskLayout | firmware/watch.c:70-80 | the mask the loops build is column i's digit laid down its four rows (bit 4*j), shifted by i |
| Display.DigitsMaskBits | firmware/watch.c:70-80 | LED j*4+i is lit exactly when bit j of digit i is set; for i, j < 4 these are all 16 LEDs, so no other bit is set |
| Display.Byte | firmware/watch.c:71 | storing a digit in a uint8_t leaves a value below 256 |
| Display.LedMaskLowNibble | firmware/watch.c:71-76 | the mask depends only on each digit modulo 16, because the uint8_t truncation keeps the low nibble and rows 0-3 read only that nibble |
| Display.DigitsMaskLowNibble | firmware/watch.c:73-77 | digit bytes that agree modulo 16 give the same mask |
| Display.SpreadDigits | firmware/watch.c:61-62 | each decimal digit's column pattern, rows weighted 1, 2, 4 and 8 |
| Display.LedMaskExamples | firmware/watch.c:32-39 | 00:00 is 0, 01:00 is 0x0002, 02:00 is 0x0020, 00:01 is 0x0008, 00:02 is 0x0080, 00:03 is 0x0088, 00:20 is 0x0040, and 13:49, the example drawn beside the LED geometry, is 0x842B |
| Leds.LedPins | firmware/watch.c:40-45 | `s_leds`, the 16 LED pins in mask order; `UnixBoard.LedPinValues` gives their uint16_t values |
| Leds.MaskOf | firmware/arch/unix/unit_test.c:6-13 | get_led_mask on 16 levels. `MaskOfBits` states its bits, and `MaskOfLevels` makes it the inverse of `Levels` |
| Leds.Levels | firmware/watch.c:63-66 | set_leds(mask) drives LED i exactly when bit i of mask is set |
| Leds.LevelsOfZero | firmware/watch.c:190-194 | set_leds(0) has every LED off, like setup()'s loop |
| Leds.MaskOfBits | firmware/arch/unix/unit_test.c:6-13 | bit j of get_led_mask's result is set exactly when LED j reads high |
| Leds.MaskOfPrefixBits | firmware/arch/unix/unit_test.c:8-11 | after k iterations of get_led_mask, bit j is set exactly when j < k and LED j is high |
| Leds.MaskOfLevels | firmware/arch/unix/unit_test.c:6-13 | reading back the levels that set_leds(m) drove gives m |
| Leds.LevelsInjective | firmware/watch.c:63-66 | two masks that drive the same levels are equal |
| Leds.OrBit | firmware/arch/unix/unit_test.c:9-10 | one iteration of get_led_mask sets bit i when LED i is high and keeps every other bit |
| Hal.PinNo | firmware/arch/stm32/hal.h:15 | PINNO is below 256 |
| Hal.PinBank | firmware/arch/stm32/hal.h:16 | PINBANK of a uint16_t pin is below 256 |
| Hal.MakePin | firmware/arch/stm32/hal.h:14-16 | for a bank at or after 'A' and a number below 256, PINNO(PIN(b, n)) = n and PINBANK(PIN(b, n)) = b - 'A'; the unix HAL repeats these macros (firmware/arch/unix/hal.h:15-17) |
| Hal.Bit | firmware/arch/stm32/hal.h:12 | BIT(x) has exactly one bit set, and that bit is bit x: bit k is set exactly when k = x |
| Hal.ClrSet | firmware/arch/stm32/hal.h:13 | when S lies inside C, CLRSET(R, C, S) keeps R's bits outside C and makes its bits inside C equal to S |
| Hal.FieldsFitMasks | firmware/arch/stm32/hal.h:60-71 | for n < 16, type <= 1, speed, pull and mode <= 3 and af <= 15, each shifted value lies inside its 1-, 2- or 4-bit mask, and AFR[n >> 3] is AFR[0] or AFR[1] |
| Hal.OtypeField | firmware/arch/stm32/hal.h:65 | after gpio_init's OTYPER update, bit n of the register reads back as the type |
| Hal.PairField | firmware/arch/stm32/hal.h:66-67 | after a two-bit update (OSPEEDR or PUPDR, and MODER on line 70), the pin's field reads back as the value written |
| Hal.AfField | firmware/arch/stm32/hal.h:68-69 | after the AFR[n >> 3] update, the pin's nibble reads back as the alternate function |
| SoftTimer.Armed | firmware/arch/stm32/hal.h:130-131 | a stale expiration (later than now + prd) and a fresh timer (0) are armed to now + prd; otherwise the expiration is kept |
| SoftTimer.ExpiredAsWritten | firmware/arch/stm32/hal.h:128-135 | returns false exactly when the armed expiration is after now, and then keeps it; on a true return t' = t + prd when now - t <= prd, otherwise now + prd, so now <= t' <= now + prd |
| SoftTimer.ExpiredAsWrittenFiresTwice | firmware/arch/stm32/hal.h:133 | polled exactly one period late, the timer fires and stores now, so a second poll at the same now fires again |
| SoftTimer.ExpiredAsWrittenFiresTwiceAtTwoSeconds | firmware/watch.c:176-182 | log_task's timer, due at 1000 ms and polled at 2000 ms, fires twice in a row |
| SoftTimer.Expired | firmware/arch/stm32/hal.h:128-135 | the corrected timer (`>=`): the firmware's fire condition, the same bounds now <= t' <= now + prd, the phase kept when the poll is less than a period late, and after a true return with prd > 0 the next expiration is strictly after now |
| SoftTimer.ExpiredAtMostOncePerInstant | firmware/arch/stm32/hal.h:132-134 | with prd > 0 the corrected timer fires at most once at any instant |
| SoftTimer.ExpiredAgreesExceptOnePeriodLate | firmware/arch/stm32/hal.h:133 | the two versions differ only on a poll exactly one period late |
| SoftTimer.FirstPollArms | firmware/arch/stm32/hal.h:131-132 | a fresh timer with prd > 0 does not fire and is armed to now + prd |
| SoftTimer.PendingUnchanged | firmware/arch/stm32/hal.h:132 | a timer polled before its expiration returns false and keeps the expiration |
| SoftTimer.FiresOnScheduleWithoutDrift | firmware/arch/stm32/hal.h:132-133 | polled every millisecond, the timer fires exactly at its expiration, re-arms one period later, and does not fire in the period before |
| SoftTimer.TimerExpired | firmware/arch/unix/hal.h:64-71 | the three in-place rewrites of `*t`, with line 69's `>`, and the return value equal `ExpiredAsWritten` |
| SoftTimer.TimerExpiredCorrected | firmware/arch/unix/hal.h:64-71 | the same rewrites with `>=` in place of line 69's `>` equal `Expired`; the log tasks call it |
| UnixBoard.LedPinValues | firmware/watch.c:40-45 | the 16 LED pins as the uint16_t values PIN() builds, from 0x0003 for A3 to 0x0106 for B6 |
| UnixBoard.LedCell | firmware/arch/unix/hal.h:40 | every LED's cell lies inside the 10 rows of g_pins |
| UnixBoard.LedCells | firmware/arch/unix/hal.h:42-48 | the cell g_pins[PINBANK(pin)][PINNO(pin)] of LED i's pin, counted row after row, is LED i's cell in the table |
| UnixBoard.A15AliasesB0 | firmware/arch/unix/hal.h:40-48 | in g_pins[10][15], PIN('A', 15) and PIN('B', 0) are different pins that share one cell, and rows of 16 cells separate them |
| UnixBoard.LedCellsAsWritten | firmware/watch.c:40-45 | with rows of 15 cells, LED 6 and LED 10 are the only two LEDs that share a cell |
| UnixBoard.LedCellsDistinct | firmware/watch.c:40-45 | with rows of at least 16 cells, every LED has a cell of its own |
| UnixBoard.CellIndexInjective | firmware/arch/unix/hal.h:42-48 | pins whose number fits a row never share a cell |
| UnixBoard.Board.constructor | firmware/arch/unix/hal.h:40 | g_pins is a static array, so every cell starts false |
| UnixBoard.CellIndex | firmware/arch/unix/hal.h:43 | the row-major cell of g_pins[PINBANK(pin)][PINNO(pin)]. `CellIndexInjective` and `A15AliasesB0` say when two pins share a cell |
| UnixBoard.Board.Read | firmware/arch/unix/hal.h:42-44 | gpio_read returns the pin's cell. `ReadStep` ties it to `ReadLevels`, and `Board.Write` changes that cell and no other |
| UnixBoard.Board.Write | firmware/arch/unix/hal.h:46-48 | gpio_write changes the pin's cell to the value and no other cell |
| UnixBoard.Board.SetLeds | firmware/watch.c:63-66 | set_leds on the simulated board writes the cells in LED order |
| UnixBoard.Board.GetLedMask | firmware/arch/unix/unit_test.c:6-13 | get_led_mask's loop returns the mask of the levels that the LED pins read |
| UnixBoard.Driven | firmware/watch.c:63-66 | the g_pins cells after set_leds has written its first k LEDs through gpio_write (firmware/arch/unix/hal.h:46-48). `DrivenAt` gives each LED's cell, and `Board.SetLeds` is proved equal to it |
| UnixBoard.ReadLevels | firmware/arch/unix/unit_test.c:8-9 | the 16 levels that get_led_mask's gpio_read calls see, each LED reading its own cell. `ReadBackCorrected` and `ReadBackAsWritten` relate it to `Levels`, and `Board.GetLedMask` reads through it |
| UnixBoard.DrivenAt | firmware/watch.c:64-66 | after set_leds has written LED i, that LED's cell holds bit i unless a later LED shares the cell |
| UnixBoard.ReadBackCorrected | firmware/arch/unix/hal.h:40-48 | on a board with rows of 16 cells, get_led_mask after set_leds(m) returns m |
| UnixBoard.ReadBackAsWritten | firmware/arch/unix/unit_test.c:6-13 | on the firmware's board, LED 6 reads back bit 10 of the mask and every other LED reads its own bit |
| UnixBoard.ReadBackAsWrittenMask | firmware/arch/unix/unit_test.c:6-13 | on the firmware's board, get_led_mask after set_leds(m) returns m exactly when bits 6 and 10 of m agree |
| UnixBoard.TwentyPastMidnightReadsBackDark | firmware/watch.c:42-43 | 00:20 (mask 0x0040) shown on the firmware's board reads back as 0 |
| WatchFirmware.HoursOffsetAsWritten | firmware/watch.c:151-152 | the int product s_press_count * 3600000 is defined exactly when the count is at most 596, and then it is the exact update |
| WatchFirmware.MinutesOffsetAsWritten | firmware/watch.c:139-141 | the int product s_press_count * 60000 is defined exactly when the count is at most 35791, and then it is the exact update |
| WatchFirmware.HoursOffsetOverflowsAt597 | firmware/watch.c:152 | 596 clicks setting hours stay in range and 597 overflow |
| WatchFirmware.MinutesOffsetOverflowsAt35792 | firmware/watch.c:141 | 35791 clicks setting minutes stay in range and 35792 overflow |
| WatchFirmware.HoursOffsetSetsHour | firmware/watch.c:148-158 | after SET_HOURS the offset's hour is count mod 24, and the offset keeps its minute |
| WatchFirmware.MinutesOffsetSetsMinute | firmware/watch.c:136-147 | after SET_MINUTES the offset's minute is count mod 60, and its hour is the old whole hours plus count / 60, mod 24 |
| WatchFirmware.MinutesOffsetKeepsHour | firmware/watch.c:139-141 | with fewer than 60 clicks, SET_MINUTES keeps the hour |
| WatchFirmware.HoursOffset | firmware/watch.c:151-152 | the SET_HOURS update with exact arithmetic. `HoursOffsetSetsHour` gives its hour and minute, and `HoursOffsetAsWritten` says when the firmware's int product agrees with it |
| WatchFirmware.MinutesOffset | firmware/watch.c:139-141 | the SET_MINUTES update with exact arithmetic. `MinutesOffsetSetsMinute` gives its minute and hour, and `MinutesOffsetAsWritten` says when the firmware's int product agrees with it |
| WatchFirmware.HoursShownAfterSetting | firmware/watch.c:120-152 | with an offset of whole hours, after SET_HOURS the hour shown at ticks is (ticks / 3600000 + count) mod 24, because the time shown is ticks plus offset |
| WatchFirmware.HoursShownAfterFiveHours | firmware/watch.c:120-152 | after 5 h of uptime, setting the hour to 3 shows 8 |
| WatchFirmware.HoursByHour | firmware/watch.c:82-84 | the hour of the day is the whole hours of the count, mod 24 |
| WatchFirmware.Tick | firmware/watch.c:52-54 | SysTick_Handler on the value. `StepsKeepConsistent` and `OffsetOnlySetWhileSetting` state what it keeps, and `Watch.SysTick` is proved equal to it |
| WatchFirmware.Press | firmware/watch.c:97-103 | EXTI2_IRQHandler on the value. `StepsKeepConsistent` and `OffsetOnlySetWhileSetting` state what it keeps, and `Watch.ButtonIrq` is proved equal to it |
| WatchFirmware.Blink | firmware/watch.c:105-112 | blink_all on the value. `SettingStartsAfterBlink` states its 400 ms per flash and the dark LEDs, and `Watch.BlinkAll` is proved equal to it |
| WatchFirmware.Dispatch | firmware/watch.c:117-159 | the state-dependent part of led_task. `SeriesSelectsMode`, `SetHoursPress`, `SetMinutesPress` and `EnteredStateStands` state what it does |
| WatchFirmware.Expire | firmware/watch.c:161-167 | the timeout check. `AwakeOnlyBeforeTimeout`, `ShowTimeIgnoresPresses` and `SettingTimesOut` state what it does |
| WatchFirmware.LedStep | firmware/watch.c:114-168 | led_task on the value, with properties stated by the lemmas on this module's rows; `Watch.LedTask` is proved equal to it |
| WatchFirmware.StartShowTime | firmware/watch.c:119-123 | the single-click branch on the value. `SinglePressShowsTime` states what it shows and until when, and `Watch.ShowTimeOfDay` is proved equal to it |
| WatchFirmware.StartSetting | firmware/watch.c:124-131 | the three- and four-click branches on the value. `SettingStartsAfterBlink` states its ticks, LEDs and timeout, and `Watch.EnterSetting` is proved equal to it |
| WatchFirmware.EndOfSeries | firmware/watch.c:119-133 | the end of a click series. `SeriesSelectsMode` states which count selects which mode and that the count is reset, and `Watch.EndSeries` is proved equal to it |
| WatchFirmware.Boot | firmware/watch.c:16-30 | the globals' start: asleep, tick 0, no clicks, LEDs off |
| WatchFirmware.StepsKeepConsistent | firmware/watch.c:114-168 | led_task, the tick and the button handler all keep 16 LED levels; asleep, the LEDs are off and the saved count is 0 |
| WatchFirmware.LedStepIdempotent | firmware/watch.c:114-168 | a second led_task with no tick and no click in between changes nothing |
| WatchFirmware.SleepWaitsForSeries | firmware/watch.c:117-118 | asleep with no click, or before NEXT_PRESS_MS have passed since the last one, led_task changes nothing |
| WatchFirmware.SeriesSelectsMode | firmware/watch.c:117-134 | once the series ends, 1 click gives SHOW_TIME, 3 give SET_HOURS and 4 give SET_MINUTES, each in both directions; any other count only resets the count; the count is 0 afterwards |
| WatchFirmware.SinglePressShowsTime | firmware/watch.c:119-123 | a single click shows the mask of hours and minutes of ticks + offset, with the timeout at ticks + 2500 |
| WatchFirmware.SinglePressReadsBackTime | firmware/watch.c:119-123 | the LEDs after a single click read back as that mask |
| WatchFirmware.SettingStartsAfterBlink | firmware/watch.c:124-131 | 4 clicks advance the ticks by 800 and 3 clicks by 400; the LEDs end off, and the timeout is 2500 after the blinking |
| WatchFirmware.ShowTimeIgnoresPresses | firmware/watch.c:135-167 | SHOW_TIME ignores clicks and never extends its timeout; after the timeout it goes dark and to sleep with both counts 0 |
| WatchFirmware.SetHoursPress | firmware/watch.c:148-158 | a new click in SET_HOURS sets the hour, keeps the minute, shows mask(count, 0), restarts the timeout and saves the count |
| WatchFirmware.SetMinutesPress | firmware/watch.c:136-147 | a new click in SET_MINUTES sets the minute, shows mask(0, count), restarts the timeout and saves the count |
| WatchFirmware.SettingTimesOut | firmware/watch.c:136-167 | setting with no new click changes nothing until the timeout, then goes dark and to sleep with the offset as set |
| WatchFirmware.EnteredStateStands | firmware/watch.c:117-167 | a state entered by one led_task call is not left by that same call |
| WatchFirmware.OffsetOnlySetWhileSetting | firmware/watch.c:136-158 | only a new click while setting changes the offset; the handlers never do |
| WatchFirmware.AwakeOnlyBeforeTimeout | firmware/watch.c:161-167 | after led_task the watch is never awake past its timeout |
| WatchFirmware.Watch.Setup | firmware/watch.c:184-199 | setup(): the static initial values with every LED written off |
| WatchFirmware.Watch.SetLeds | firmware/watch.c:63-68 | the LED array becomes the levels of the mask |
| WatchFirmware.Watch.SysTick | firmware/watch.c:52-54 | the tick count goes up by one; nothing else changes |
| WatchFirmware.Watch.ButtonIrq | firmware/watch.c:97-103 | PR1 is BIT(2), the next press is due at ticks + 500, and the count goes up by one; nothing else changes |
| WatchFirmware.Watch.DelayMs | firmware/arch/unix/hal.h:35-37 | the unix delay_ms adds ms to the ticks and changes nothing else |
| WatchFirmware.Watch.BlinkAll | firmware/watch.c:105-112 | blink_all(n) advances the ticks by 400 * n and leaves every LED off when n > 0 |
| WatchFirmware.Watch.ShowTimeOfDay | firmware/watch.c:119-123 | the single-click branch, set_state included, equals `StartShowTime` |
| WatchFirmware.Watch.Show | firmware/watch.c:121-123 | set_state, the new timeout at ticks + 2500 and set_leds(mask), with the count reset as line 133 does; nothing else changes |
| WatchFirmware.Watch.EnterSetting | firmware/watch.c:124-131 | blink_all, then set_state and the timeout after the blinking, with the count reset, equal `StartSetting` |
| WatchFirmware.Watch.EndSeries | firmware/watch.c:119-133 | the end-of-series branch equals `EndOfSeries` |
| WatchFirmware.Watch.ApplyMinutes | firmware/watch.c:138-147 | the SET_MINUTES branch equals `Dispatch` |
| WatchFirmware.Watch.ApplyHours | firmware/watch.c:150-158 | the SET_HOURS branch equals `Dispatch` |
| WatchFirmware.Watch.SleepOnTimeout | firmware/watch.c:161-167 | the timeout check equals `Expire` |
| WatchFirmware.Watch.LedTask | firmware/watch.c:114-168 | led_task equals `LedStep`, whose properties are the lemmas above |
| WatchFirmware.Watch.LogTask | firmware/watch.c:176-182 | log_task polls the corrected timer and changes nothing else |
| WatchFirmware.Watch.Loop | firmware/watch.c:201-204 | loop(): log_task polls the log timer at the current tick count, then led_task moves the watch state by `LedStep` |
| Blinker.Tick | firmware/main.c:26-28 | SysTick_Handler on the value. `StepsKeepLit` states what it keeps, and `Board.SysTick` is proved equal to it |
| Blinker.Press | firmware/main.c:35-39 | EXTI2_IRQHandler on the value. `PressLightsForDuration` states what it leads to, and `Board.ButtonIrq` is proved equal to it |
| Blinker.TurnOn | firmware/main.c:43-46 | the first if of led_task. `LampFollowsPress` and `OneBranchPerStep` state what it does |
| Blinker.TurnOff | firmware/main.c:47-52 | the second if of led_task. `LampFollowsPress` and `OneBranchPerStep` state what it does |
| Blinker.LampStep | firmware/main.c:41-53 | led_task on the value. `LampFollowsPress`, `OneBranchPerStep`, `LampStepIdempotent` and `StepsKeepLit` state what it does, and `Board.LedTask` is proved equal to it |
| Blinker.Start | firmware/main.c:69-79 | main()'s start: LED 0 off like every other LED, and `on` false |
| Blinker.StepsKeepLit | firmware/main.c:41-52 | led_task, the tick and the button handler keep `on` equal to LED 0's level and the other 15 LEDs low |
| Blinker.LampFollowsPress | firmware/main.c:43-52 | after led_task the LED is on while the deadline is ahead, off once it has passed, and unchanged at the very tick it expires |
| Blinker.OneBranchPerStep | firmware/main.c:43-52 | a single led_task never takes both branches |
| Blinker.LampStepIdempotent | firmware/main.c:41-53 | a second led_task with nothing in between changes nothing |
| Blinker.PressLightsForDuration | firmware/main.c:35-46 | after a click, led_task lights the LED, and it is still lit at every tick fewer than LED_SHOW_DURATION_MS after the click |
| Blinker.Board.Setup | firmware/main.c:69-79 | the statics' initial values with every LED written off |
| Blinker.Board.SysTick | firmware/main.c:26-28 | s_ticks goes up by exactly one |
| Blinker.Board.ButtonIrq | firmware/main.c:35-39 | the deadline becomes s_ticks + 2500 and PR1 is BIT(2); nothing else changes |
| Blinker.Board.LedTask | firmware/main.c:41-53 | led_task's two branches equal `LampStep` |
| Blinker.Board.LogTask | firmware/main.c:61-67 | log_task polls the timer and changes nothing else |
| Blinker.Board.Iterate | firmware/main.c:85-88 | one pass of the endless loop |
| Scenarios.Wait | firmware/arch/unix/unit_test.c:28 | the test's `g_ticks +=`; the `Step` lemmas use it through `Round` |
| Scenarios.Presses | firmware/arch/unix/unit_test.c:38-40 | n calls of EXTI2_IRQHandler in a row; `Click` is proved equal to it |
| Scenarios.Round | firmware/arch/unix/unit_test.c:27-29 | one round of the test: clicks, a wait, then one loop(). The `Step` lemmas give each round's state, and `PlayRound` is proved equal to it |
| Scenarios.StepA | firmware/arch/unix/unit_test.c:26-30 | at 3:00 minutes, one click and a 501 ms wait show 00:03 (mask 0x0088) until 183001 |
| Scenarios.StepB | firmware/arch/unix/unit_test.c:32-35 | 2501 ms later the watch is asleep and dark |
| Scenarios.StepC | firmware/arch/unix/unit_test.c:38-44 | three clicks and a 501 ms wait blink once (400 ms) and enter SET_HOURS, dark |
| Scenarios.StepD | firmware/arch/unix/unit_test.c:45-48 | 2502 ms later the watch is asleep again |
| Scenarios.StepE | firmware/arch/unix/unit_test.c:51-57 | three more clicks enter SET_HOURS again |
| Scenarios.StepF | firmware/arch/unix/unit_test.c:58-61 | one click in SET_HOURS sets the offset to 1 hour and shows mask 0x0002 |
| Scenarios.StepG | firmware/arch/unix/unit_test.c:62-65 | another click sets 2 hours and shows 0x0020 |
| Scenarios.StepH | firmware/arch/unix/unit_test.c:67-72 | 3002 ms later the watch sleeps with the offset at 2 hours |
| Scenarios.StepI | firmware/arch/unix/unit_test.c:74-82 | four clicks blink twice (800 ms) and enter SET_MINUTES |
| Scenarios.StepJ | firmware/arch/unix/unit_test.c:83-85 | one click sets 2:01 and shows 0x0008 |
| Scenarios.StepK | firmware/arch/unix/unit_test.c:86-88 | another click sets 2:02 and shows 0x0080 |
| Scenarios.StepL | firmware/arch/unix/unit_test.c:90-93 | 3002 ms later the watch sleeps, dark, with the offset at 2:02 |
| Scenarios.UnitTestStates | firmware/arch/unix/unit_test.c:15-95 | each loop() call of the unit test reaches the expected state, field by field |
| Scenarios.UnitTestMasks | firmware/arch/unix/unit_test.c:30-93 | the LED masks these states show, in set_leds' order |
| Scenarios.UnitTestOffset | firmware/arch/unix/unit_test.c:67-70 | the offset is 2:00 after setting hours (the check line 70 means) and 2:02 after setting minutes |
| Scenarios.UnitTestReadBacks | firmware/arch/unix/unit_test.c:19-93 | the 13 masks the test's get_led_mask() calls read back, as the code's layout gives them; `UnitTest` returns them and `UnitTestMasksReadBackOnBoard` is about them |
| Scenarios.UnitTestMasksReadBackOnBoard | firmware/arch/unix/hal.h:40-48 | none of the 13 masks the unit test reads back has bit 6 or bit 10 set, so the unix board's rows of 15 cells give each of them back |
| Scenarios.Click | firmware/watch.c:97-103 | n calls of EXTI2_IRQHandler on a `Watch` equal n presses |
| Scenarios.PlayRound | firmware/arch/unix/unit_test.c:27-29 | clicks, a wait added to g_ticks and one loop() move the `Watch` by `Round` |
| Scenarios.Observe | firmware/arch/unix/unit_test.c:6-13 | a round, followed by get_led_mask, s_state and the offset read back, returns the expected state's mask, mode and offset |
| Scenarios.ShowTimeRounds | firmware/arch/unix/unit_test.c:25-35 | the single-click rounds on a `Watch` read back 0x0088 and then 0 |
| Scenarios.SetHoursRounds | firmware/arch/unix/unit_test.c:37-72 | the hour-setting rounds read back 0, 0, 0, 0x0002, 0x0020 and 0, pass through the modes the test checks, and leave the offset at 2 hours |
| Scenarios.SetMinutesRounds | firmware/arch/unix/unit_test.c:74-93 | the minute-setting rounds read back 0, 0x0008, 0x0080 and 0 in SET_MINUTES, and leave the offset at 2:02 |
| Scenarios.UnitTest | firmware/arch/unix/unit_test.c:15-95 | main() run on a `Watch` returns the masks it encodes, the mask read back after each step, the states it checks and the offset after each setting |

## Left out

- UART, `printf` and `_write` logging have no effect on the state and are not modelled. `log_task` reports only whether it would log.
- `clock_init`, `uart_init`, `gpio_output`/`gpio_input`, `attach_external_irq` and the register writes of `gpio_init`, `gpio_read` and `gpio_write` on the STM32 are not modelled. The registers they touch are declared in a vendor header that is not part of this model. Only the field arithmetic of `gpio_init` and `CLRSET` is modelled.
- The STM32 `spin` and `delay_ms` busy-waits are replaced by the unix `delay_ms`. They end only because the tick interrupt runs concurrently.
- Interrupts are modelled as atomic steps between polls. A click that lands inside `led_task`, between its read of the count and its reset, is not modelled.
- The 64-bit tick and offset counters are modelled as unbounded numbers. The wrap-around that `timer_expired`'s first step guards against never happens here. The step is kept because it also discards an expiration more than one period ahead.
- The click counter `s_press_count` is a `nat`. Its own `int` overflow, after about 2^31 clicks, is not modelled.
- `stack_fill`, `stack_used`, `ram_used`, `ram_free` and `syscalls.c` depend on linker symbols and are not modelled.
- `SystemInit` and `SystemCoreClock` are not modelled.
- `rng_*` and `uart_*` of the STM32 HAL are not modelled.
- Log lines do not exist in the model. The log timer is kept outside `Snapshot`, because nothing else reads it.
- The unit test's own assertions are not modelled as written.
  - Lines 22-23, 30, 61, 85 and 88 expect an older layout, bit i*4+j. `time_to_led_mask` produces bit j*4+i, for example 0x0002 for 1:00 where the test expects 0x10. `Scenarios` states what the code produces.
  - `LED_SHOW_DURATION_MS` is defined only in `firmware/main.c`. The waits at lines 33, 45, 68 and 91 are modelled with the watch's TIMEOUT_MS of 2500.
  - Line 70 assigns with `=` instead of comparing. It is modelled as the intended comparison: `UnitTestOffset`, and the `offset` result of `UnitTest`.
- Scenarios.UnitTest: the LEDs are read back from the watch's ideal LED array. The unix board is modelled on its own in `UnixBoard`, and `Scenarios.UnitTestMasksReadBackOnBoard` proves that it gives back every mask the test reads, because none of them has bit 6 or bit 10 set.
- `main.c`'s led_task prints the LED pins in a loop. Only its `gpio_write` of LED 0 and the `on` flag are modelled.
- WatchFirmware.Dispatch, WatchFirmware.LedStep, WatchFirmware.Watch.LedTask, WatchFirmware.Watch.LogTask, WatchFirmware.Watch.Loop, Blinker.Board.LogTask, Blinker.Board.Iterate: these use the corrected offset updates (`HoursOffset`, `MinutesOffset`) and the corrected timer (`Expired`, through `TimerExpiredCorrected`). A log timer polled exactly one period late is re-armed to now + prd, where the firmware stores now and fires again at the same tick. The firmware's versions are modelled beside them; see Findings.

## Findings

| source | as written | input that shows it | evidently intended | confidence | as-written member | corrected member |
|---|---|---|---|---|---|---|
| firmware/arch/stm32/hal.h:133 | `(now - *t) > prd` keeps the phase on a poll exactly one period late, so the new expiration is `now` and a second poll at the same `now` fires again | *t = 1000, prd = 1000, now = 2000: the first call returns true and stores 2000; the second call at 2000 returns true again | at most one expiry per instant: restart from `now` when `now - *t >= prd` | not executed | SoftTimer.TimerExpired, SoftTimer.ExpiredAsWritten, SoftTimer.ExpiredAsWrittenFiresTwice, SoftTimer.ExpiredAsWrittenFiresTwiceAtTwoSeconds | SoftTimer.TimerExpiredCorrected, SoftTimer.Expired, SoftTimer.ExpiredAtMostOncePerInstant |
| firmware/arch/unix/hal.h:40 | `g_pins[10][15]` has no cell for pin number 15, but `s_leds` uses PIN('A', 15); `g_pins[0][15]` is the cell of PIN('B', 0) | set_leds(0x0040), which is 00:20: LED 6 is written high, then LED 10 writes low into the same cell, and get_led_mask returns 0 | rows of 16 cells (`g_pins[10][16]`), so that every LED reads back its own level | not executed | UnixBoard.ReadBackAsWritten, UnixBoard.ReadBackAsWrittenMask, UnixBoard.TwentyPastMidnightReadsBackDark, UnixBoard.A15AliasesB0 | UnixBoard.ReadBackCorrected, UnixBoard.LedCellsDistinct |
| firmware/watch.c:139-152 | `s_press_count * 60000` and `s_press_count * 3600000` are `int` products, which overflow (undefined behaviour) past 35791 and 596 clicks | 597 clicks in SET_HOURS: 597 * 3600000 > 2^31 - 1 | exact arithmetic in the 64-bit offset, e.g. a `uint64_t` factor | not executed | WatchFirmware.HoursOffsetAsWritten, WatchFirmware.HoursOffsetOverflowsAt597, WatchFirmware.MinutesOffsetAsWritten, WatchFirmware.MinutesOffsetOverflowsAt35792 | WatchFirmware.HoursOffsetSetsHour, WatchFirmware.MinutesOffsetSetsMinute |
