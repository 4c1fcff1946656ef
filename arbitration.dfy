/** The mode-arbitration state machine of the Keychron M1, as pure
    transition functions. Each handler maps the firmware's globals (plus the
    host-side values the firmware reads back) to new globals and the list of
    calls it makes into the host framework. */
module Arbitration {
  import opened Words
  import opened Timer
  import opened Dpi

  /** A hold latches only once more than this many ms have passed. */
  const HoldMs: nat := 3000
  /** The factory-reset countdown advances once more than this many ms passed. */
  const RepeatMs: nat := 300
  /** The counter value after which the next advance resets the device. */
  const ResetFlashes: nat := 7

  /** rgb_reset_mode: which key's hold the shared 3 s timer is timing. */
  datatype Mode = ModeNone | ModeRgb | ModeReset

  /** The keys process_record_kb tells apart. */
  datatype Keycode = RgbConfigKey | DpiConfigKey | OtherKey(code: u16)

  /** Calls into the host framework, in the order they are made. */
  datatype Effect =
    | RgbStep                // rgb_matrix_step
    | HueUp                  // rgb_matrix_increase_hue
    | HueDown                // rgb_matrix_decrease_hue
    | WheelUp                // tap_code_delay(KC_WH_U, ...)
    | WheelDown              // tap_code_delay(KC_WH_D, ...)
    | SaveConfig(dpi: u8)    // eeconfig_update_kb with this DPI index
    | SetCpi(cpi: u16)       // pointing_device_set_cpi
    | EepromReset            // eeconfig_init
    | RgbEnable              // rgb_matrix_enable
    | RgbInit                // rgb_matrix_init

  /** The firmware's globals, and the host-side values it reads back: the
      sensor resolution last set, the colour the status LED shows and
      whether the RGB matrix is enabled. */
  datatype Machine = Machine(
    mode: Mode,              // rgb_reset_mode
    timer3s: u32,            // timer_3s_buffer, 0 = unarmed
    timer250ms: u32,         // timer_250ms_buffer, 0 = unarmed
    resetCount: u8,          // factory_reset_count
    rgbCfgIndicate: bool,    // rgb_cfg_indicate
    wheelSetHue: bool,       // wheel_set_hue
    rgbCfgMode: bool,        // rgb_cfg_mode
    dpiCfgMode: bool,        // dpi_cfg_mode
    dpiConfig: u8,           // keyboard_config.dpi_config
    cpi: u16,                // pointing_device_get_cpi()
    status: StatusLed,       // the colour commanded on the status LED
    rgbEnabled: bool)        // rgb_matrix_is_enabled()

  /** A handler's result: the new state and the host calls it made. */
  datatype Out = Out(state: Machine, effects: seq<Effect>)

  /** The invariant every handler keeps: the indicator flag mirrors hue
      mode, and the countdown counter never exceeds 7 between ticks. */
  predicate Inv(s: Machine)
  {
    s.rgbCfgIndicate == s.wheelSetHue && s.resetCount <= ResetFlashes
  }

  /** The state after power-up: static initialisers of the globals, the DPI
      byte read from EEPROM by matrix_init_kb (unvalidated), the host's
      resolution and RGB state, and the status LED switched off by
      keyboard_pre_init_kb. */
  function Boot(storedDpi: u8, cpi: u16, rgbEnabled: bool): (s: Machine)
    ensures Inv(s)
    ensures s.mode == ModeNone && s.timer3s == 0 && s.timer250ms == 0
    ensures s.dpiConfig == storedDpi && !s.wheelSetHue && !s.dpiCfgMode && !s.rgbCfgMode
  {
    Machine(ModeNone, 0, 0, 0, false, false, false, false, storedDpi, cpi, LedOff, rgbEnabled)
  }

  /** led_dpi_indicators: recolour the status LED from the current
      resolution; outside every band the LED keeps its colour. */
  function LedDpiIndicators(s: Machine): (t: Machine)
    ensures DpiColour(s.cpi).Some? ==> t.status == DpiColour(s.cpi).value
    ensures DpiColour(s.cpi).None? ==> t == s
    ensures t.(status := s.status) == s
  {
    s.(status := Indicated(s.cpi, s.status))
  }

  /** pointing_device_init_kb: set the resolution of the stored index and
      show it on the status LED. The source indexes dpi_array with the
      stored byte unchecked, so it needs the byte to be a table index. */
  function PointingDeviceInitKb(s: Machine): (o: Out)
    requires s.dpiConfig < |DpiTable|
    ensures o.state.cpi == DpiTable[s.dpiConfig]
    ensures o.state.status == IndexColour(s.dpiConfig)
    ensures o.state.(cpi := s.cpi, status := s.status) == s
    ensures o.effects == [SetCpi(DpiTable[s.dpiConfig])]
  {
    TableColours(s.dpiConfig, s.dpiConfig);
    var cpi := DpiTable[s.dpiConfig];
    Out(LedDpiIndicators(s.(cpi := cpi)), [SetCpi(cpi)])
  }

  /** eeconfig_init_kb: restore the default DPI index and persist it. */
  function EeconfigInitKb(s: Machine): (o: Out)
    ensures o.state.dpiConfig == DefaultIndex && o.state.dpiConfig < |DpiTable|
    ensures o.state.(dpiConfig := s.dpiConfig) == s
    ensures o.effects == [SaveConfig(DefaultIndex)]
  {
    Out(s.(dpiConfig := DefaultIndex), [SaveConfig(DefaultIndex)])
  }

  /** RGB_CONFIG in process_record_kb. */
  function OnRgbConfig(s: Machine, pressed: bool, now: u32): (o: Out)
    // the press that follows a hue latch leaves hue mode, sets rgbCfgMode
    // and neither arms nor touches the hold timer
    ensures pressed && s.wheelSetHue ==>
      && !o.state.wheelSetHue && !o.state.rgbCfgIndicate && o.state.rgbCfgMode
      && o.state.mode == s.mode && o.state.timer3s == s.timer3s
    // any other press takes over the shared hold timer, whatever was pending
    ensures pressed && !s.wheelSetHue ==> o.state == s.(mode := ModeRgb, timer3s := now)
    // every release cancels whichever hold is pending
    ensures !pressed ==> o.state.mode == ModeNone && o.state.timer3s == 0
    // a release never leaves hue mode; it ends rgbCfgMode unless hue mode is on
    ensures !pressed ==>
      && o.state.wheelSetHue == s.wheelSetHue
      && o.state.rgbCfgIndicate == s.rgbCfgIndicate
      && o.state.rgbCfgMode == (s.rgbCfgMode && s.wheelSetHue)
    // exactly one effect step, on a release outside both hue flags; none otherwise
    ensures o.effects == if !pressed && !s.wheelSetHue && !s.rgbCfgMode then [RgbStep] else []
    // the DPI side and the countdown are untouched
    ensures o.state.dpiConfig == s.dpiConfig && o.state.dpiCfgMode == s.dpiCfgMode
    ensures o.state.timer250ms == s.timer250ms && o.state.resetCount == s.resetCount
    ensures o.state.cpi == s.cpi && o.state.status == s.status && o.state.rgbEnabled == s.rgbEnabled
    ensures Inv(s) ==> Inv(o.state)
  {
    if pressed then
      if s.wheelSetHue then
        Out(s.(wheelSetHue := false, rgbCfgIndicate := false, rgbCfgMode := true), [])
      else
        Out(s.(mode := ModeRgb, timer3s := now), [])
    else
      var t := if s.wheelSetHue || s.rgbCfgMode then
                 (if !s.wheelSetHue then s.(rgbCfgMode := false) else s)
               else s;
      var effects := if s.wheelSetHue || s.rgbCfgMode then [] else [RgbStep];
      Out(t.(mode := ModeNone, timer3s := 0), effects)
  }

  /** DPI_CONFIG in process_record_kb. */
  function OnDpiConfig(s: Machine, pressed: bool, now: u32): (o: Out)
    // a press takes over the shared hold timer, whatever was pending
    ensures pressed ==> o == Out(s.(mode := ModeReset, timer3s := now), [])
    // every release cancels whichever hold is pending
    ensures !pressed ==> o.state.mode == ModeNone && o.state.timer3s == 0 && !o.state.dpiCfgMode
    // the release that follows a reset latch only clears the flag
    ensures !pressed && s.dpiCfgMode ==>
      o.state.dpiConfig == s.dpiConfig && o.state.cpi == s.cpi && o.state.status == s.status && o.effects == []
    // a short tap moves to the next index, persists it, applies its resolution
    // and shows that index's colour
    ensures !pressed && !s.dpiCfgMode ==>
      && o.state.dpiConfig == NextIndex(s.dpiConfig)
      && o.state.cpi == DpiTable[o.state.dpiConfig]
      && o.state.status == IndexColour(o.state.dpiConfig)
      && o.effects == [SaveConfig(o.state.dpiConfig), SetCpi(DpiTable[o.state.dpiConfig])]
    // the hue side and the countdown are untouched: a release does not stop it
    ensures o.state.wheelSetHue == s.wheelSetHue && o.state.rgbCfgIndicate == s.rgbCfgIndicate
    ensures o.state.rgbCfgMode == s.rgbCfgMode && o.state.rgbEnabled == s.rgbEnabled
    ensures o.state.timer250ms == s.timer250ms && o.state.resetCount == s.resetCount
    ensures s.dpiConfig < |DpiTable| ==> o.state.dpiConfig < |DpiTable|
    ensures Inv(s) ==> Inv(o.state)
  {
    if pressed then
      Out(s.(mode := ModeReset, timer3s := now), [])
    else if s.dpiCfgMode then
      Out(s.(dpiCfgMode := false, mode := ModeNone, timer3s := 0), [])
    else
      var index := NextIndex(s.dpiConfig);
      var p := PointingDeviceInitKb(s.(dpiConfig := index));
      Out(p.state.(mode := ModeNone, timer3s := 0), [SaveConfig(index)] + p.effects)
  }

  /** process_record_kb: the two configuration keys are consumed; every
      other key is left to the rest of the keymap. */
  function OnKey(s: Machine, key: Keycode, pressed: bool, now: u32): (o: Out)
    ensures key.OtherKey? ==> o == Out(s, [])
  {
    match key
    case RgbConfigKey => OnRgbConfig(s, pressed, now)
    case DpiConfigKey => OnDpiConfig(s, pressed, now)
    case OtherKey(_) => Out(s, [])
  }

  /** The value process_record_kb returns: whether processing continues. */
  function ContinueProcessing(key: Keycode): (r: bool)
    ensures r <==> key.OtherKey?
  {
    match key
    case RgbConfigKey => false
    case DpiConfigKey => false
    case OtherKey(_) => true
  }

  /** The hold timer has been armed for more than HoldMs at `now`. */
  predicate HoldExpired(s: Machine, now: u32)
  {
    s.timer3s != 0 && Elapsed(s.timer3s, now) > HoldMs
  }

  /** The countdown timer has been armed for more than RepeatMs at `now`. */
  predicate RepeatDue(s: Machine, now: u32)
  {
    s.timer250ms != 0 && Elapsed(s.timer250ms, now) > RepeatMs
  }

  /** First half of matrix_scan_kb: the hold latch. */
  function Latch(s: Machine, now: u32): (t: Machine)
    ensures !HoldExpired(s, now) ==> t == s
    ensures HoldExpired(s, now) && s.mode == ModeRgb ==>
      t == s.(timer3s := 0, wheelSetHue := true, rgbCfgIndicate := true)
    ensures HoldExpired(s, now) && s.mode == ModeReset ==>
      t == s.(timer3s := 0, dpiCfgMode := true, timer250ms := now)
    ensures HoldExpired(s, now) && s.mode == ModeNone ==> t == s.(timer3s := 0)
  {
    if HoldExpired(s, now) then
      match s.mode
      case ModeRgb => s.(timer3s := 0, wheelSetHue := true, rgbCfgIndicate := true)
      case ModeReset => s.(timer3s := 0, dpiCfgMode := true, timer250ms := now)
      case ModeNone => s.(timer3s := 0)
    else
      s
  }

  /** The DPI part of a factory reset: eeconfig_init_kb, then
      pointing_device_init_kb, then led_dpi_indicators once more. The
      default index, its resolution and its colour are restored, and
      nothing else changes. */
  function RestoreDefaults(s: Machine): (o: Out)
    ensures o.state == s.(dpiConfig := DefaultIndex, cpi := DpiTable[DefaultIndex],
                          status := IndexColour(DefaultIndex))
    ensures o.effects == [SaveConfig(DefaultIndex), SetCpi(DpiTable[DefaultIndex])]
  {
    var e := EeconfigInitKb(s);
    var p := PointingDeviceInitKb(e.state);
    var shown := LedDpiIndicators(p.state);
    IndicatedIdempotent(shown.cpi, p.state.status);
    Out(shown, e.effects + p.effects)
  }

  /** The factory reset that ends the countdown (lines 184-193 of m1.c):
      eeconfig_init, the DPI defaults, then the RGB matrix is enabled if it
      was not and reinitialised. */
  function FactoryReset(s: Machine): (o: Out)
    // countdown cleared, DPI defaults back, RGB matrix on; the mode flags
    // and the hold timer are left alone
    ensures o.state == s.(resetCount := 0, timer250ms := 0, dpiConfig := DefaultIndex,
                          cpi := DpiTable[DefaultIndex], status := IndexColour(DefaultIndex),
                          rgbEnabled := true)
    ensures o.effects ==
      [EepromReset, SaveConfig(DefaultIndex), SetCpi(DpiTable[DefaultIndex])]
      + (if s.rgbEnabled then [] else [RgbEnable]) + [RgbInit]
  {
    var r := RestoreDefaults(s.(resetCount := 0, timer250ms := 0));
    var enable := if s.rgbEnabled then [] else [RgbEnable];
    Out(r.state.(rgbEnabled := true), [EepromReset] + r.effects + enable + [RgbInit])
  }

  /** Second half of matrix_scan_kb: the factory-reset countdown. */
  function Countdown(s: Machine, now: u32): (o: Out)
    // the countdown never touches the hold side or the mode flags
    ensures && o.state.mode == s.mode && o.state.timer3s == s.timer3s
            && o.state.wheelSetHue == s.wheelSetHue && o.state.rgbCfgIndicate == s.rgbCfgIndicate
            && o.state.dpiCfgMode == s.dpiCfgMode && o.state.rgbCfgMode == s.rgbCfgMode
    ensures !RepeatDue(s, now) ==> o == Out(s, [])
    ensures RepeatDue(s, now) && s.resetCount < ResetFlashes ==>
      o == Out(s.(resetCount := s.resetCount + 1, timer250ms := now), [])
    ensures RepeatDue(s, now) && s.resetCount == ResetFlashes ==> o == FactoryReset(s)
  {
    if RepeatDue(s, now) then
      var count := (s.resetCount + 1) % 0x100;  // ++ on a uint8_t
      if count > ResetFlashes then FactoryReset(s)
      else Out(s.(resetCount := count, timer250ms := now), [])
    else
      Out(s, [])
  }

  /** matrix_scan_kb: one scan tick at clock value `now`. */
  function OnScan(s: Machine, now: u32): (o: Out)
    ensures Inv(s) ==> Inv(o.state)
    ensures s.dpiConfig < |DpiTable| ==> o.state.dpiConfig < |DpiTable|
    ensures RgbStep !in o.effects
  {
    var latched := Latch(s, now);
    Countdown(latched, now)
  }

  /** A scan that does not find an expired hold leaves the pending mode,
      the hold timer and every mode flag as they were; only the countdown
      side can move. */
  lemma ScanBeforeHold(s: Machine, now: u32)
    requires !HoldExpired(s, now)
    ensures var t := OnScan(s, now).state;
      && t.mode == s.mode && t.timer3s == s.timer3s
      && t.wheelSetHue == s.wheelSetHue && t.rgbCfgIndicate == s.rgbCfgIndicate
      && t.dpiCfgMode == s.dpiCfgMode && t.rgbCfgMode == s.rgbCfgMode
  {
    assert Latch(s, now) == s;
  }

  /** A scan disarms the hold timer exactly when it was unarmed already or
      has been armed for more than HoldMs. */
  lemma ScanDisarmsHold(s: Machine, now: u32)
    ensures OnScan(s, now).state.timer3s == 0 <==> (s.timer3s == 0 || HoldExpired(s, now))
  {
    var latched := Latch(s, now);
    assert latched.timer3s == 0 <==> (s.timer3s == 0 || HoldExpired(s, now));
    assert OnScan(s, now).state.timer3s == latched.timer3s;
  }

  /** encoder_update_kb's decision: in hue mode the wheel adjusts the hue,
      otherwise it scrolls; clockwise means up. */
  function EncoderEffect(wheelSetHue: bool, clockwise: bool): (e: Effect)
    ensures (e == HueUp || e == HueDown) <==> wheelSetHue
    ensures (e == WheelUp || e == WheelDown) <==> !wheelSetHue
    ensures (e == HueUp || e == WheelUp) <==> clockwise
  {
    if wheelSetHue then
      (if clockwise then HueUp else HueDown)
    else
      (if clockwise then WheelUp else WheelDown)
  }

  /** encoder_update_kb: one wheel detent; the state is untouched. */
  function OnEncoder(s: Machine, clockwise: bool): (o: Out)
    ensures o.state == s && o.effects == [EncoderEffect(s.wheelSetHue, clockwise)]
  {
    Out(s, [EncoderEffect(s.wheelSetHue, clockwise)])
  }
}
