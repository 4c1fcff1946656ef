# Keychron M1 mode arbitration

A Dafny model of the mode-arbitration state machine in the Keychron M1
firmware (`keyboards/keychron/m1/m1.c`). The device shares two buttons
between several behaviours:

- **RGB_CONFIG.** A short tap steps the RGB effect. Holding it for more
  than 3 s latches hue-adjust mode: the wheel then changes the hue and LED
  13 lights white. The next press leaves that mode.
- **DPI_CONFIG.** A short tap cycles the sensor resolution through
  {1200, 2400, 3600, 5000}, saves the index to EEPROM and shows it on a
  tri-colour status LED. Holding it for more than 3 s starts a
  factory-reset countdown. The countdown flashes the key LEDs on every
  tick spaced more than 300 ms apart and resets the device on the eighth
  such tick.

The model has three layers:

- **`Arbitration`** gives every handler as a pure transition. Each maps
  `Machine` (the firmware's globals, plus the values the firmware reads
  back from the host: current resolution, status-LED colour, RGB matrix
  enabled) to the new `Machine` and the list of host calls it makes
  (`Effect`).
- **`Board.M1Keyboard`** is a class whose fields are those globals. Its
  methods follow the C statement by statement. Each is proved to move the
  object exactly as its `Arbitration` transition moves the abstract state,
  and to make the same host calls in the same order.
  `rgb_matrix_indicators_kb` becomes `Overlay`, a loop over an `array` of
  colours.
- **`Runs`** folds the transitions over sequences of events: key events,
  scan ticks and wheel detents, strictly serialised. It proves what whole
  gestures do.

Supporting modules:

- `Words`: fixed-width integers.
- `Timer`: 32-bit wrapping elapsed time, as in `timer_elapsed32`.
- `Dpi`: the resolution table and the status-LED bands.
- `Lighting`: RGB colours and the reset flash.

Where the code differs from the obvious reading of the behaviour, the
model follows the code:

- **Strict thresholds.** A hold latches only when strictly more than 3000
  ms have elapsed (`> 3000`). The countdown advances only when strictly
  more than 300 ms have elapsed.
- **Hue mode ends on the next press, not on a release.** The release right
  after the latch keeps hue mode. The next press clears it and sets
  `rgb_cfg_mode`. The following release clears `rgb_cfg_mode` without
  stepping the effect.
- **The latch does not reset the counter.** Latching a DPI hold arms the
  300 ms timer but leaves `factory_reset_count` as it was.
- **A release does not stop the countdown.** Releasing DPI_CONFIG after the
  latch only clears `dpi_cfg_mode`; the countdown timer keeps running. A
  release of either key disarms the shared hold timer, whichever key armed
  it.
- **A press takes over the hold timer.** A press of DPI_CONFIG, or of
  RGB_CONFIG outside hue mode, overwrites the pending mode and the shared
  hold timer. The RGB_CONFIG press that leaves hue mode touches neither.
- **The counter is a `uint8_t`.** `++` wraps modulo 256. The invariant
  `Inv` shows that it never exceeds 7 between ticks, so the wrap is never
  reached.
- **The clock value 0 doubles as "unarmed".** A due countdown scan that
  reads the clock exactly at 0 re-arms the countdown at 0, which stops it
  for good (`Runs.ZeroClockStallsCountdown`). The countdown lemmas
  therefore cover runs whose due scans read a non-zero clock.

## Model

| member | source | states |
|---|---|---|
| Timer.Elapsed | keyboards/keychron/m1/m1.c:167 | time since a stamp is the forward distance on the 32-bit clock, including across a wrap to zero |
| Timer.ElapsedAfter | keyboards/keychron/m1/m1.c:182 | a clock read d ms after a stamp (wrapping) reports exactly d elapsed, so the thresholds hold across the wrap |
| Dpi.NextIndex | keyboards/keychron/m1/m1.c:145 | a DPI tap moves to the next table index and wraps from the last to the first; the result is always a valid index, even from an out-of-range stored byte |
| Dpi.DpiColour | keyboards/keychron/m1/m1.c:323-334 | the status LED is recoloured exactly when the resolution lies between 50 and 5000 |
| Dpi.DpiColourBands | keyboards/keychron/m1/m1.c:325-333 | the LED shows entry i's colour if and only if the resolution lies above entry i-1 (or at least 50) and at most entry i |
| Dpi.TableColours | keyboards/keychron/m1/m1.c:82-90 | every table resolution is shown in its own colour, and distinct entries have distinct colours |
| Dpi.BandEdges | keyboards/keychron/m1/m1.c:325-333 | the band edges: 50 and 1200 white, 1201 and 2400 blue, 2401 and 3600 green, 3601 and 5000 red; 49, 5001 and 6000 leave the LED unchanged |
| Dpi.IndicatedIdempotent | keyboards/keychron/m1/m1.c:188-189 | running the indicator a second time, as the factory reset does, changes nothing |
| Lighting.FlashColour | keyboards/keychron/m1/m1.c:273 | the reset flash is red on an even count and off on an odd one |
| Arbitration.Boot | keyboards/keychron/m1/m1.c:65-77 | after power-up nothing is pending, every flag is clear, the invariant holds, and the DPI index is the stored byte |
| Arbitration.LedDpiIndicators | keyboards/keychron/m1/m1.c:323-334 | only the status LED changes; it takes the band colour of the resolution, or is left alone outside every band |
| Arbitration.PointingDeviceInitKb | keyboards/keychron/m1/m1.c:246-249 | the resolution becomes the table entry for the stored index and the LED shows that index's colour; one set-cpi call is made and nothing else changes |
| Arbitration.EeconfigInitKb | keyboards/keychron/m1/m1.c:251-255 | the DPI index becomes the default (a valid index) and is saved; nothing else changes |
| Arbitration.OnRgbConfig | keyboards/keychron/m1/m1.c:114-136 | the press after a hue latch leaves hue mode; any other press takes over the hold timer; every release cancels the pending hold and never leaves hue mode; an effect step happens exactly on a release outside both hue flags; the DPI side is untouched and the invariant is kept |
| Arbitration.OnDpiConfig | keyboards/keychron/m1/m1.c:137-153 | a press takes over the hold timer; a release after a reset latch only clears the flag; a short tap advances, saves and applies the next index and shows its colour; the countdown and hue side are untouched, and the index stays valid |
| Arbitration.OnKey | keyboards/keychron/m1/m1.c:113-163 | any key other than the two configuration keys leaves the state alone and makes no host call |
| Arbitration.ContinueProcessing | keyboards/keychron/m1/m1.c:136-162 | the two configuration keys are consumed; every other key goes on to the keymap |
| Arbitration.Latch | keyboards/keychron/m1/m1.c:167-180 | before the hold expires nothing changes; on expiry the timer is disarmed, and an RGB hold enters hue mode while a DPI hold enters reset mode and starts the countdown |
| Arbitration.RestoreDefaults | keyboards/keychron/m1/m1.c:187-189 | the default index, its resolution and its colour are restored, with one save and one set-cpi call, and nothing else changes |
| Arbitration.FactoryReset | keyboards/keychron/m1/m1.c:184-193 | counter and countdown timer are cleared, the DPI defaults are restored and the RGB matrix is enabled (enable called only if it was off) and reinitialised; the modes and the hold timer are left alone |
| Arbitration.Countdown | keyboards/keychron/m1/m1.c:182-197 | not due: nothing changes; due below 8: the counter advances and the timer re-arms; the eighth advance performs the factory reset; the hold side and the mode flags never change |
| Arbitration.OnScan | keyboards/keychron/m1/m1.c:166-200 | a scan keeps the invariant and a valid DPI index, and never steps the RGB effect |
| Arbitration.ScanBeforeHold | keyboards/keychron/m1/m1.c:167 | a scan before the hold expires leaves the pending mode, the hold timer and every mode flag unchanged |
| Arbitration.ScanDisarmsHold | keyboards/keychron/m1/m1.c:167-168 | after a scan the hold timer is unarmed if and only if it was unarmed already or the hold had expired |
| Arbitration.EncoderEffect | keyboards/keychron/m1/m1.c:233-241 | the wheel changes the hue exactly in hue mode and scrolls otherwise; clockwise means up in both cases |
| Arbitration.OnEncoder | keyboards/keychron/m1/m1.c:230-244 | a detent leaves the state unchanged and makes exactly one host call, the hue or scroll call chosen by EncoderEffect |
| Board.M1Keyboard.constructor | keyboards/keychron/m1/m1.c:65-77 | the object starts in the boot state with no host call made |
| Board.M1Keyboard.LedDpiIndicators | keyboards/keychron/m1/m1.c:323-334 | in place, the object moves as Arbitration.LedDpiIndicators |
| Board.M1Keyboard.PointingDeviceInitKb | keyboards/keychron/m1/m1.c:246-249 | in place, the object and the host-call log move as Arbitration.PointingDeviceInitKb |
| Board.M1Keyboard.EeconfigInitKb | keyboards/keychron/m1/m1.c:251-255 | in place, the object and the host-call log move as Arbitration.EeconfigInitKb |
| Board.M1Keyboard.ProcessRecord | keyboards/keychron/m1/m1.c:104-164 | the returned flag is true exactly for keys other than the two configuration keys; the object moves as Arbitration.OnKey and keeps the invariant |
| Board.M1Keyboard.RgbConfig | keyboards/keychron/m1/m1.c:114-136 | in place, the object moves as Arbitration.OnRgbConfig |
| Board.M1Keyboard.DpiConfig | keyboards/keychron/m1/m1.c:137-153 | in place, the object moves as Arbitration.OnDpiConfig |
| Board.M1Keyboard.Tick | keyboards/keychron/m1/m1.c:166-200 | in place, the object moves as Arbitration.OnScan and keeps the invariant |
| Board.M1Keyboard.LatchHold | keyboards/keychron/m1/m1.c:167-180 | in place, the object moves as Arbitration.Latch and makes no host call |
| Board.M1Keyboard.AdvanceCountdown | keyboards/keychron/m1/m1.c:182-197 | in place, the uint8 increment included, the object moves as Arbitration.Countdown |
| Board.M1Keyboard.ResetDevice | keyboards/keychron/m1/m1.c:184-193 | in place, the object moves as Arbitration.FactoryReset and makes its host calls in order |
| Board.M1Keyboard.RestoreDefaults | keyboards/keychron/m1/m1.c:187-189 | in place, the object moves as Arbitration.RestoreDefaults |
| Board.M1Keyboard.EnableRgb | keyboards/keychron/m1/m1.c:190-192 | the RGB matrix ends enabled; it is enabled with a host call only when it was off |
| Board.M1Keyboard.Encoder | keyboards/keychron/m1/m1.c:230-244 | the detent is always reported handled, the object is unchanged, and the host call is Arbitration.OnEncoder's |
| Board.M1Keyboard.Overlay | keyboards/keychron/m1/m1.c:265-276 | LED 13 is white in hue mode and off otherwise; while the counter is non-zero LEDs 0-12 show the flash colour for its parity, otherwise they keep the rendered frame |
| Runs.RunKeepsInv | keyboards/keychron/m1/m1.c:114-197 | along every run of events the hue indicator mirrors hue mode and the counter stays within 0..7 |
| Runs.RunKeepsDpiIndex | keyboards/keychron/m1/m1.c:145-147 | once the stored DPI byte is a valid index, every run keeps it one, so dpi_array is never read out of bounds afterwards |
| Runs.DpiTapsCycle | keyboards/keychron/m1/m1.c:142-149 | n short DPI taps advance the index by n modulo 4, with resolution and LED colour following it |
| Runs.NoLatchBeforeHold | keyboards/keychron/m1/m1.c:167 | scans at or before 3000 ms after the stamp never latch: mode, hold timer and flags are unchanged and the effect is not stepped |
| Runs.ShortRgbTap | keyboards/keychron/m1/m1.c:122-135 | a press, scans within 3000 ms and a release step the RGB effect exactly once and leave every mode idle |
| Runs.CountdownAdvances | keyboards/keychron/m1/m1.c:182-196 | with no hold armed, any run of scans, at any spacing and across a clock wrap, advances the counter once per scan that comes more than 300 ms after the previous advance and re-arms the timer there; while the counter stays within 7 nothing else changes and no host call is made |
| Runs.FactoryResetOnce | keyboards/keychron/m1/m1.c:182-197 | from counter c, scans that find the countdown due 7 - c times reset nothing and make no host call; the next due scan performs the factory reset exactly once and clears counter and timer |
| Runs.LastTick | keyboards/keychron/m1/m1.c:182-193 | with no hold armed, a due scan at counter 7 performs the factory reset |
| Runs.ZeroClockStallsCountdown | keyboards/keychron/m1/m1.c:182-195 | a due scan that reads the clock at 0 advances the counter but re-arms the timer at the unarmed value, so no later scan advances it |
| Runs.HueModeRoundTrip | keyboards/keychron/m1/m1.c:117-135 | press, latch, release keeps hue mode; a further press and release leaves every RGB mode idle, without an effect step |
| Runs.HueLatch | keyboards/keychron/m1/m1.c:122-135 | a hold past 3000 ms followed by a release enters hue mode and lights the indicator, without an effect step |
| Runs.HueExit | keyboards/keychron/m1/m1.c:117-130 | in hue mode, one press and release leave hue, indicator and config mode, without an effect step |

## Left out

- Arbitration.PointingDeviceInitKb: requires a stored DPI index below 4. `matrix_init_kb` loads the byte from EEPROM without checking it, and the C code then reads past the end of `dpi_array` for a larger byte. That read has no defined value to model. `Board.M1Keyboard.PointingDeviceInitKb` carries the same precondition.
- Board.M1Keyboard.PointingDeviceInitKb: same precondition and reason as `Arbitration.PointingDeviceInitKb`.
- GPIO writes to the status LED (`led_red_on` and the others, lines 278-321) are modelled as the colour they command (`StatusLed`), not as pin levels. Of `keyboard_pre_init_kb` only its `led_all_off` appears, as the status LED being off in `Boot`; the grounding of unused pins is not modelled.
- The LED wiring tables (`g_ckled2001_leds`, `g_led_config`) are not modelled.
- Arbitration.ContinueProcessing: follows a build without CONSOLE_ENABLE. With it, the `KC_BTN4` case (lines 155-159) prints the resolution on a press and consumes the key on both press and release, so mouse button 4 never reaches the keymap; the model lets every key other than the two configuration keys through.
- Host primitives are recorded as `Effect` values in call order and not modelled further: `rgb_matrix_step`, hue up and down, `tap_code_delay`, `eeconfig_update_kb`, `pointing_device_set_cpi`, `eeconfig_init`, `rgb_matrix_enable` and `rgb_matrix_init`. The resolution the sensor reports back is the last value set.
- `eeconfig_init`, the framework's own reset, also calls `eeconfig_init_kb` internally. That nested call is not modelled: it leaves the same default index that the explicit call right after it sets.
- The `*_user` hooks are taken to return true and to change nothing. `process_record_user`, `encoder_update_user`, `matrix_scan_user` and `eeconfig_init_user` are keymap code outside this file.
- `sync_timer_read32` and `timer_read32` are treated as one millisecond clock, passed in as the value `now` that one handler call reads.
- `matrix_init_kb` is modelled only by its result: an arbitrary stored DPI byte given to `Boot`.
- The encoder `index` argument is not modelled, because the device has one wheel and the handler ignores the argument.

