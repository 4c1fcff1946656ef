/** The firmware's globals as one object whose handlers update them in
    place, as process_record_kb, matrix_scan_kb, encoder_update_kb and
    rgb_matrix_indicators_kb do. Every handler is proved to move the
    object exactly as the corresponding transition of module Arbitration
    moves the abstract state, and to make the same host calls. */
module Board {
  import opened Words
  import opened Timer
  import opened Dpi
  import opened Lighting
  import opened Arbitration

  class M1Keyboard {
    var rgbResetMode: Mode
    var timer3sBuffer: u32
    var timer250msBuffer: u32
    var factoryResetCount: u8
    var rgbCfgIndicate: bool
    var wheelSetHue: bool
    var rgbCfgMode: bool
    var dpiCfgMode: bool
    var dpiConfig: u8
    // What the host framework holds and the firmware reads back.
    var cpi: u16
    var statusLed: StatusLed
    var rgbEnabled: bool
    // Every call made into the host framework so far.
    ghost var effects: seq<Effect>

    /** The abstract state this object stands for. */
    function Snapshot(): Machine
      reads this
    {
      Machine(rgbResetMode, timer3sBuffer, timer250msBuffer, factoryResetCount,
              rgbCfgIndicate, wheelSetHue, rgbCfgMode, dpiCfgMode, dpiConfig,
              cpi, statusLed, rgbEnabled)
    }

    /** Power-up: the globals' initialisers, the DPI byte matrix_init_kb
        reads from EEPROM, and the host's resolution and RGB state. */
    constructor (storedDpi: u8, hostCpi: u16, hostRgbEnabled: bool)
      ensures Snapshot() == Boot(storedDpi, hostCpi, hostRgbEnabled)
      ensures effects == []
    {
      rgbResetMode := ModeNone;
      timer3sBuffer, timer250msBuffer, factoryResetCount := 0, 0, 0;
      rgbCfgIndicate, wheelSetHue, rgbCfgMode, dpiCfgMode := false, false, false, false;
      dpiConfig := storedDpi;
      cpi, statusLed, rgbEnabled := hostCpi, LedOff, hostRgbEnabled;
      effects := [];
    }

    method LedDpiIndicators()
      modifies this
      ensures Snapshot() == Arbitration.LedDpiIndicators(old(Snapshot()))
      ensures effects == old(effects)
    {
      var current := cpi;
      match DpiColour(current) {
        case Some(c) => statusLed := c;
        case None =>
      }
    }

    method PointingDeviceInitKb()
      requires dpiConfig < |DpiTable|
      modifies this
      ensures Snapshot() == Arbitration.PointingDeviceInitKb(old(Snapshot())).state
      ensures effects == old(effects) + Arbitration.PointingDeviceInitKb(old(Snapshot())).effects
    {
      cpi := DpiTable[dpiConfig];
      effects := effects + [SetCpi(cpi)];
      LedDpiIndicators();
    }

    method EeconfigInitKb()
      modifies this
      ensures Snapshot() == Arbitration.EeconfigInitKb(old(Snapshot())).state
      ensures effects == old(effects) + Arbitration.EeconfigInitKb(old(Snapshot())).effects
    {
      dpiConfig := DefaultIndex;
      effects := effects + [SaveConfig(dpiConfig)];
    }

    /** process_record_kb for one key event at clock value `now`; returns
        whether the rest of the keymap should see the key. */
    method ProcessRecord(key: Keycode, pressed: bool, now: u32) returns (continueProcessing: bool)
      modifies this
      ensures continueProcessing == ContinueProcessing(key)
      ensures Snapshot() == OnKey(old(Snapshot()), key, pressed, now).state
      ensures effects == old(effects) + OnKey(old(Snapshot()), key, pressed, now).effects
      ensures Inv(old(Snapshot())) ==> Inv(Snapshot())
    {
      match key {
        case RgbConfigKey =>
          RgbConfig(pressed, now);
          continueProcessing := false;
        case DpiConfigKey =>
          DpiConfig(pressed, now);
          continueProcessing := false;
        case OtherKey(_) =>
          continueProcessing := true;
      }
    }

    method RgbConfig(pressed: bool, now: u32)
      modifies this
      ensures Snapshot() == OnRgbConfig(old(Snapshot()), pressed, now).state
      ensures effects == old(effects) + OnRgbConfig(old(Snapshot()), pressed, now).effects
    {
      if pressed {
        if wheelSetHue {
          wheelSetHue := false;
          rgbCfgIndicate := false;
          rgbCfgMode := true;
        } else {
          rgbResetMode := ModeRgb;
          timer3sBuffer := now;
        }
      } else {
        if wheelSetHue || rgbCfgMode {
          if !wheelSetHue {
            rgbCfgMode := false;
          }
        } else {
          effects := effects + [RgbStep];
        }
        rgbResetMode := ModeNone;
        timer3sBuffer := 0;
      }
    }

    method DpiConfig(pressed: bool, now: u32)
      modifies this
      ensures Snapshot() == OnDpiConfig(old(Snapshot()), pressed, now).state
      ensures effects == old(effects) + OnDpiConfig(old(Snapshot()), pressed, now).effects
    {
      if pressed {
        rgbResetMode := ModeReset;
        timer3sBuffer := now;
      } else {
        if dpiCfgMode {
          dpiCfgMode := false;
        } else {
          dpiConfig := (dpiConfig + 1) % |DpiTable|;
          effects := effects + [SaveConfig(dpiConfig)];
          ghost var stored := Snapshot();
          assert stored == old(Snapshot()).(dpiConfig := NextIndex(old(dpiConfig)));
          PointingDeviceInitKb();
          assert Snapshot() == Arbitration.PointingDeviceInitKb(stored).state;
        }
        rgbResetMode := ModeNone;
        timer3sBuffer := 0;
      }
    }

    /** matrix_scan_kb at clock value `now`: the hold latch, then the
        factory-reset countdown. */
    method Tick(now: u32)
      modifies this
      ensures Snapshot() == OnScan(old(Snapshot()), now).state
      ensures effects == old(effects) + OnScan(old(Snapshot()), now).effects
      ensures Inv(old(Snapshot())) ==> Inv(Snapshot())
    {
      LatchHold(now);
      AdvanceCountdown(now);
    }

    /** Lines 167-180 of m1.c. */
    method LatchHold(now: u32)
      modifies this
      ensures Snapshot() == Latch(old(Snapshot()), now)
      ensures effects == old(effects)
    {
      if timer3sBuffer != 0 && Elapsed(timer3sBuffer, now) > HoldMs {
        timer3sBuffer := 0;
        match rgbResetMode {
          case ModeRgb =>
            wheelSetHue := true;
            rgbCfgIndicate := true;
          case ModeReset =>
            dpiCfgMode := true;
            timer250msBuffer := now;
          case ModeNone =>
        }
      }
    }

    /** Lines 182-197 of m1.c. */
    method AdvanceCountdown(now: u32)
      modifies this
      ensures Snapshot() == Countdown(old(Snapshot()), now).state
      ensures effects == old(effects) + Countdown(old(Snapshot()), now).effects
    {
      if timer250msBuffer != 0 && Elapsed(timer250msBuffer, now) > RepeatMs {
        factoryResetCount := (factoryResetCount + 1) % 0x100;
        if factoryResetCount > ResetFlashes {
          ResetDevice();
        } else {
          timer250msBuffer := now;
        }
      }
    }

    /** Lines 184-193 of m1.c. */
    method ResetDevice()
      modifies this
      ensures Snapshot() == FactoryReset(old(Snapshot())).state
      ensures effects == old(effects) + FactoryReset(old(Snapshot())).effects
    {
      ghost var s0 := old(Snapshot());
      factoryResetCount := 0;
      timer250msBuffer := 0;
      effects := effects + [EepromReset];
      assert Snapshot() == s0.(resetCount := 0, timer250ms := 0);
      RestoreDefaults();
      assert Snapshot() == s0.(resetCount := 0, timer250ms := 0, dpiConfig := DefaultIndex,
                               cpi := DpiTable[DefaultIndex], status := IndexColour(DefaultIndex));
      assert effects == old(effects) + [EepromReset, SaveConfig(DefaultIndex), SetCpi(DpiTable[DefaultIndex])];
      EnableRgb();
      effects := effects + [RgbInit];
    }

    /** Lines 190-192 of m1.c. */
    method EnableRgb()
      modifies this
      ensures Snapshot() == old(Snapshot()).(rgbEnabled := true)
      ensures effects == old(effects) + if old(rgbEnabled) then [] else [RgbEnable]
    {
      if !rgbEnabled {
        rgbEnabled := true;
        effects := effects + [RgbEnable];
      }
    }

    /** Lines 187-189 of m1.c. */
    method RestoreDefaults()
      modifies this
      ensures Snapshot() == Arbitration.RestoreDefaults(old(Snapshot())).state
      ensures effects == old(effects) + Arbitration.RestoreDefaults(old(Snapshot())).effects
    {
      EeconfigInitKb();
      PointingDeviceInitKb();
      LedDpiIndicators();
    }

    /** encoder_update_kb for one detent of the wheel. */
    method Encoder(clockwise: bool) returns (handled: bool)
      modifies this
      ensures handled
      ensures Snapshot() == old(Snapshot())
      ensures effects == old(effects) + OnEncoder(old(Snapshot()), clockwise).effects
    {
      if wheelSetHue {
        if clockwise {
          effects := effects + [HueUp];
        } else {
          effects := effects + [HueDown];
        }
      } else {
        effects := effects + [if clockwise then WheelUp else WheelDown];
      }
      handled := true;
    }

    /** rgb_matrix_indicators_kb: overlay the indicator LED and, while the
        factory-reset countdown runs, the flash over every other LED onto
        the frame the lighting effect has rendered. */
    method Overlay(frame: array<Rgb>)
      requires frame.Length == LedCount
      modifies frame
      ensures frame[IndicatorLed] == if rgbCfgIndicate then RgbWhite else RgbOff
      ensures forall i :: 0 <= i < IndicatorLed ==>
        frame[i] == if factoryResetCount == 0 then old(frame[i]) else FlashColour(factoryResetCount)
    {
      if rgbCfgIndicate {
        frame[IndicatorLed] := RgbWhite;
      } else {
        frame[IndicatorLed] := RgbOff;
      }
      if factoryResetCount != 0 {
        for i := 0 to IndicatorLed
          invariant frame[IndicatorLed] == if rgbCfgIndicate then RgbWhite else RgbOff
          invariant forall j :: 0 <= j < i ==> frame[j] == FlashColour(factoryResetCount)
          invariant forall j :: i <= j < IndicatorLed ==> frame[j] == old(frame[j])
        {
          frame[i] := Rgb(if factoryResetCount % 2 != 0 then 0 else 0xFF, 0, 0);
        }
      }
    }
  }
}
