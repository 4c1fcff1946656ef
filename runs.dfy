/** Sequences of events as the framework delivers them (key events, scan
    ticks, wheel detents, strictly one after another) and what the state
    machine does over whole runs. */
module Runs {
  import opened Words
  import opened Timer
  import opened Dpi
  import opened Arbitration

  datatype Event =
    | KeyEvent(key: Keycode, pressed: bool, now: u32)
    | Scan(now: u32)
    | Turn(clockwise: bool)

  function Step(s: Machine, e: Event): Out
  {
    match e
    case KeyEvent(key, pressed, now) => OnKey(s, key, pressed, now)
    case Scan(now) => OnScan(s, now)
    case Turn(clockwise) => OnEncoder(s, clockwise)
  }

  /** Folds a step function over a run: the final state, and the host
      calls of every step in order. */
  function Fold(step: (Machine, Event) -> Out, s: Machine, events: seq<Event>): Out
    decreases |events|
  {
    if events == [] then Out(s, [])
    else
      var first := step(s, events[0]);
      var rest := Fold(step, first.state, events[1..]);
      Out(rest.state, first.effects + rest.effects)
  }

  /** The state after a run of the firmware's handlers, and every host call
      made along it. */
  function Run(s: Machine, events: seq<Event>): Out
  {
    Fold(Step, s, events)
  }

  /** Running two pieces one after the other is running their concatenation. */
  lemma {:induction false} FoldAppend(step: (Machine, Event) -> Out, s: Machine, a: seq<Event>, b: seq<Event>)
    ensures Fold(step, s, a + b).state == Fold(step, Fold(step, s, a).state, b).state
    ensures Fold(step, s, a + b).effects == Fold(step, s, a).effects + Fold(step, Fold(step, s, a).state, b).effects
    decreases |a|
  {
    if a == [] {
      assert a + b == b;
    } else {
      assert (a + b)[0] == a[0];
      assert (a + b)[1..] == a[1..] + b;
      FoldAppend(step, step(s, a[0]).state, a[1..], b);
    }
  }

  /** A run that ends in one more event, when the run before it made no
      host call, ends as that event's step does. */
  lemma FoldSnoc(step: (Machine, Event) -> Out, s: Machine, prefix: seq<Event>, e: Event)
    requires Fold(step, s, prefix).effects == []
    ensures Fold(step, s, prefix + [e]) == step(Fold(step, s, prefix).state, e)
  {
    var m := Fold(step, s, prefix).state;
    FoldAppend(step, s, prefix, [e]);
    var last := step(m, e);
    assert [e][1..] == [];
    assert Fold(step, last.state, []) == Out(last.state, []);
    assert Fold(step, m, [e]) == Out(last.state, last.effects + []);
    assert last.effects + [] == last.effects;
  }

  lemma RunAppend(s: Machine, a: seq<Event>, b: seq<Event>)
    ensures Run(s, a + b).state == Run(Run(s, a).state, b).state
    ensures Run(s, a + b).effects == Run(s, a).effects + Run(Run(s, a).state, b).effects
  {
    FoldAppend(Step, s, a, b);
  }

  /** A run of one event is that event's step. */
  lemma RunOne(s: Machine, e: Event)
    ensures Run(s, [e]) == Step(s, e)
  {
    var first := Step(s, e);
    assert [e][1..] == [];
    assert Fold(Step, first.state, []) == Out(first.state, []);
    assert first.effects + [] == first.effects;
  }

  /** Every run keeps the invariant: the hue indicator mirrors hue mode and
      the countdown counter stays within 0..7. */
  lemma {:induction false} RunKeepsInv(s: Machine, events: seq<Event>)
    requires Inv(s)
    ensures Inv(Run(s, events).state)
    decreases |events|
  {
    if events != [] {
      RunKeepsInv(Step(s, events[0]).state, events[1..]);
    }
  }

  /** Once the stored DPI byte is a table index, every run keeps it one. */
  lemma {:induction false} RunKeepsDpiIndex(s: Machine, events: seq<Event>)
    requires s.dpiConfig < |DpiTable|
    ensures Run(s, events).state.dpiConfig < |DpiTable|
    decreases |events|
  {
    if events != [] {
      RunKeepsDpiIndex(Step(s, events[0]).state, events[1..]);
    }
  }

  /** `n` quick taps of DPI_CONFIG at clock value `now`. */
  function DpiTaps(n: nat, now: u32): seq<Event>
  {
    if n == 0 then []
    else [KeyEvent(DpiConfigKey, true, now), KeyEvent(DpiConfigKey, false, now)] + DpiTaps(n - 1, now)
  }

  /** After `n` short taps the index has advanced by `n` modulo the table
      size, the resolution and the status LED follow it, and nothing else
      of the DPI side is pending. */
  lemma {:induction false} DpiTapsCycle(s: Machine, n: nat, now: u32)
    requires !s.dpiCfgMode
    requires n > 0 || s.dpiConfig < |DpiTable|
    ensures var t := Run(s, DpiTaps(n, now)).state;
      && t.dpiConfig == (s.dpiConfig + n) % |DpiTable|
      && !t.dpiCfgMode
      && (n > 0 ==> t.cpi == DpiTable[t.dpiConfig] && t.status == IndexColour(t.dpiConfig))
    decreases n
  {
    if n > 0 {
      var press := KeyEvent(DpiConfigKey, true, now);
      var release := KeyEvent(DpiConfigKey, false, now);
      var events := DpiTaps(n, now);
      assert events == [press] + ([release] + DpiTaps(n - 1, now));
      var s1 := Step(s, press).state;
      var s2 := Step(s1, release).state;
      assert s2.dpiConfig == (s.dpiConfig + 1) % |DpiTable|;
      RunAppend(s, [press], [release] + DpiTaps(n - 1, now));
      RunAppend(s1, [release], DpiTaps(n - 1, now));
      RunOne(s, press);
      RunOne(s1, release);
      DpiTapsCycle(s2, n - 1, now);
    }
  }

  /** Scan ticks none of which finds the hold timer armed for more than
      HoldMs (in particular: any scans while the timer is unarmed). */
  predicate ScansBeforeHold(stamp: u32, events: seq<Event>)
  {
    forall i :: 0 <= i < |events| ==>
      events[i].Scan? && (stamp == 0 || Elapsed(stamp, events[i].now) <= HoldMs)
  }

  /** A hold never latches early: through scans that come no later than
      HoldMs after the stamp, the pending mode, the hold timer and every
      mode flag stay as they were. With a stamp of 0 nothing ever latches. */
  lemma {:induction false} NoLatchBeforeHold(s: Machine, events: seq<Event>)
    requires ScansBeforeHold(s.timer3s, events)
    ensures var t := Run(s, events).state;
      && t.mode == s.mode && t.timer3s == s.timer3s
      && t.wheelSetHue == s.wheelSetHue && t.rgbCfgIndicate == s.rgbCfgIndicate
      && t.dpiCfgMode == s.dpiCfgMode && t.rgbCfgMode == s.rgbCfgMode
    ensures RgbStep !in Run(s, events).effects
    decreases |events|
  {
    if events != [] {
      var t := Step(s, events[0]).state;
      ScanBeforeHold(s, events[0].now);
      assert ScansBeforeHold(t.timer3s, events[1..]) by {
        forall i | 0 <= i < |events[1..]|
          ensures events[1..][i].Scan?
          ensures t.timer3s == 0 || Elapsed(t.timer3s, events[1..][i].now) <= HoldMs
        {
          assert events[1..][i] == events[i + 1];
        }
      }
      NoLatchBeforeHold(t, events[1..]);
    }
  }

  /** A press of RGB_CONFIG outside hue mode, followed only by scans that
      come within HoldMs of the press, and a release: exactly one effect
      step, and every mode is left idle. */
  lemma ShortRgbTap(s: Machine, pressAt: u32, scans: seq<Event>, releaseAt: u32)
    requires !s.wheelSetHue && !s.rgbCfgMode
    requires forall i :: 0 <= i < |scans| ==>
      scans[i].Scan? && pressAt <= scans[i].now <= pressAt + HoldMs
    ensures var o := Run(s, [KeyEvent(RgbConfigKey, true, pressAt)] + scans + [KeyEvent(RgbConfigKey, false, releaseAt)]);
      && multiset(o.effects)[RgbStep] == 1
      && o.state.mode == ModeNone && o.state.timer3s == 0
      && !o.state.wheelSetHue && !o.state.rgbCfgMode
  {
    var press := KeyEvent(RgbConfigKey, true, pressAt);
    var release := KeyEvent(RgbConfigKey, false, releaseAt);
    var s1 := Step(s, press).state;
    assert ScansBeforeHold(s1.timer3s, scans);
    NoLatchBeforeHold(s1, scans);
    var s2 := Run(s1, scans).state;
    RunAppend(s, [press], scans);
    RunAppend(s, [press] + scans, [release]);
    RunOne(s, press);
    RunOne(s2, release);
    assert RgbStep !in Run(s1, scans).effects;
  }

  /** A scan at clock value `now` finds the countdown armed at `stamp` due. */
  predicate DueAt(stamp: u32, now: u32)
  {
    Elapsed(stamp, now) > RepeatMs
  }

  /** A run of scans, counted against the countdown armed at `stamp`:
      scans that come too early are skipped, and every scan that finds the
      countdown due re-arms it at its own clock value, which must not be
      the unarmed value 0. */
  predicate CountdownScans(stamp: u32, events: seq<Event>)
    decreases |events|
  {
    events == [] ||
    (events[0].Scan? &&
     if DueAt(stamp, events[0].now) then
       events[0].now != 0 && CountdownScans(events[0].now, events[1..])
     else
       CountdownScans(stamp, events[1..]))
  }

  /** How many of those scans find the countdown due. */
  function DueTicks(stamp: u32, events: seq<Event>): nat
    requires CountdownScans(stamp, events)
    decreases |events|
  {
    if events == [] then 0
    else if DueAt(stamp, events[0].now) then 1 + DueTicks(events[0].now, events[1..])
    else DueTicks(stamp, events[1..])
  }

  /** The clock value of the last scan that found the countdown due, or
      `stamp` when none did. */
  function LastDue(stamp: u32, events: seq<Event>): (last: u32)
    requires CountdownScans(stamp, events)
    ensures stamp != 0 ==> last != 0
    ensures DueTicks(stamp, events) == 0 ==> last == stamp
    decreases |events|
  {
    if events == [] then stamp
    else if DueAt(stamp, events[0].now) then LastDue(events[0].now, events[1..])
    else LastDue(stamp, events[1..])
  }

  /** A countdown that no hold interferes with: through any run of scans,
      at any spacing and across a wrap of the clock, the counter goes up by
      one for each scan more than RepeatMs after the previous advance, the
      timer is re-armed at that scan, and as long as the counter stays
      within 7 nothing else changes and no host call is made. */
  lemma {:induction false} CountdownAdvances(s: Machine, events: seq<Event>)
    requires s.timer3s == 0 && s.timer250ms != 0
    requires CountdownScans(s.timer250ms, events)
    requires s.resetCount + DueTicks(s.timer250ms, events) <= ResetFlashes
    ensures Run(s, events) ==
      Out(s.(resetCount := s.resetCount + DueTicks(s.timer250ms, events),
             timer250ms := LastDue(s.timer250ms, events)), [])
    decreases |events|
  {
    if events != [] {
      var now := events[0].now;
      var t := if DueAt(s.timer250ms, now) then s.(resetCount := s.resetCount + 1, timer250ms := now) else s;
      assert Latch(s, now) == s;
      assert Step(s, events[0]) == Out(t, []);
      CountdownAdvances(t, events[1..]);
    }
  }

  /** The countdown resets the device exactly once: from any counter value
      `c` within 0..7, through scans that find the countdown due 7 - c
      times, nothing is reset and no host call is made; the next scan that
      finds it due performs the factory reset, which clears counter and
      timer and restores the default DPI index, resolution and colour. */
  lemma FactoryResetOnce(s: Machine, prefix: seq<Event>, now: u32)
    requires s.timer3s == 0 && s.timer250ms != 0 && s.resetCount <= ResetFlashes
    requires CountdownScans(s.timer250ms, prefix)
    requires DueTicks(s.timer250ms, prefix) == ResetFlashes - s.resetCount
    requires DueAt(LastDue(s.timer250ms, prefix), now)
    ensures Run(s, prefix).effects == []
    ensures ResetDone(Run(s, prefix + [Scan(now)]))
  {
    CountdownAdvances(s, prefix);
    LastTick(Run(s, prefix).state, now);
    ResetAfterPrefix(s, prefix, Scan(now));
  }

  /** A run that ends on the tick performing the factory reset, after a
      prefix that asked the host for nothing, is a completed reset. */
  lemma ResetAfterPrefix(s: Machine, prefix: seq<Event>, e: Event)
    requires Run(s, prefix).effects == []
    requires Step(Run(s, prefix).state, e) == FactoryReset(Run(s, prefix).state)
    ensures ResetDone(Run(s, prefix + [e]))
  {
    FoldSnoc(Step, s, prefix, e);
    FactoryResetIsDone(Run(s, prefix).state);
  }

  /** What a completed factory reset leaves behind: eeconfig_init called
      exactly once, the default DPI index persisted and applied, the
      countdown cleared and the RGB matrix enabled. */
  predicate ResetDone(o: Out)
  {
    && multiset(o.effects)[EepromReset] == 1
    && SaveConfig(DefaultIndex) in o.effects
    && o.state.resetCount == 0 && o.state.timer250ms == 0
    && o.state.dpiConfig == DefaultIndex && o.state.cpi == DpiTable[DefaultIndex]
    && o.state.status == IndexColour(DefaultIndex) && o.state.rgbEnabled
  }

  lemma FactoryResetIsDone(s: Machine)
    ensures ResetDone(FactoryReset(s))
  {
    var tail := (if s.rgbEnabled then [] else [RgbEnable]) + [RgbInit];
    assert multiset(tail)[EepromReset] == 0;
  }

  /** The tick that finds the counter at 7 and the countdown due resets. */
  lemma LastTick(m: Machine, now: u32)
    requires m.resetCount == ResetFlashes && m.timer3s == 0
    requires m.timer250ms != 0 && DueAt(m.timer250ms, now)
    ensures Step(m, Scan(now)) == FactoryReset(m)
  {
    assert Latch(m, now) == m;
  }

  /** The unarmed value 0 is also a clock value: a due scan that reads the
      clock exactly at 0 before the eighth advance re-arms the countdown at
      0, which stops it, and no later scan advances it. */
  lemma ZeroClockStallsCountdown(s: Machine, later: u32)
    requires s.timer3s == 0 && s.timer250ms != 0 && DueAt(s.timer250ms, 0)
    requires s.resetCount < ResetFlashes
    ensures var t := Step(s, Scan(0)).state;
      && t.timer250ms == 0 && t.resetCount == s.resetCount + 1
      && Step(t, Scan(later)).state == t
  {
    assert Latch(s, 0) == s;
  }

  /** Hue mode from start to end: press RGB_CONFIG, hold it past HoldMs,
      release (hue mode stays on), press again (hue mode ends), release.
      No effect step is issued along the way. */
  lemma HueModeRoundTrip(s: Machine, t0: u32, t1: u32, t2: u32, t3: u32, t4: u32)
    requires Inv(s) && !s.wheelSetHue && !s.rgbCfgMode
    requires t0 != 0 && Elapsed(t0, t1) > HoldMs
    ensures var afterRelease := Run(s, [KeyEvent(RgbConfigKey, true, t0), Scan(t1), KeyEvent(RgbConfigKey, false, t2)]).state;
      afterRelease.wheelSetHue && afterRelease.rgbCfgIndicate
    ensures var o := Run(s, [KeyEvent(RgbConfigKey, true, t0), Scan(t1), KeyEvent(RgbConfigKey, false, t2),
                             KeyEvent(RgbConfigKey, true, t3), KeyEvent(RgbConfigKey, false, t4)]);
      && !o.state.wheelSetHue && !o.state.rgbCfgIndicate && !o.state.rgbCfgMode
      && o.state.mode == ModeNone && o.state.timer3s == 0
      && RgbStep !in o.effects
  {
    var e0, e1, e2 := KeyEvent(RgbConfigKey, true, t0), Scan(t1), KeyEvent(RgbConfigKey, false, t2);
    var e3, e4 := KeyEvent(RgbConfigKey, true, t3), KeyEvent(RgbConfigKey, false, t4);
    HueLatch(s, t0, t1, t2);
    RunKeepsInv(s, [e0, e1, e2]);
    HueExit(Run(s, [e0, e1, e2]).state, t3, t4);
    RunAppend(s, [e0, e1, e2], [e3, e4]);
    assert [e0, e1, e2] + [e3, e4] == [e0, e1, e2, e3, e4];
  }

  /** Holding RGB_CONFIG past HoldMs and releasing it leaves hue mode on,
      and asks for no effect step. */
  lemma HueLatch(s: Machine, t0: u32, t1: u32, t2: u32)
    requires Inv(s) && !s.wheelSetHue && !s.rgbCfgMode
    requires t0 != 0 && Elapsed(t0, t1) > HoldMs
    ensures var o := Run(s, [KeyEvent(RgbConfigKey, true, t0), Scan(t1), KeyEvent(RgbConfigKey, false, t2)]);
      && o.state.wheelSetHue && o.state.rgbCfgIndicate
      && RgbStep !in o.effects
  {
    var e0, e1, e2 := KeyEvent(RgbConfigKey, true, t0), Scan(t1), KeyEvent(RgbConfigKey, false, t2);
    var s1 := Step(s, e0).state;
    var s2 := Step(s1, e1).state;
    assert s2.wheelSetHue;
    RunOne(s, e0); RunOne(s1, e1); RunOne(s2, e2);
    RunAppend(s, [e0], [e1]);
    RunAppend(s, [e0, e1], [e2]);
    assert [e0] + [e1] == [e0, e1];
    assert [e0, e1] + [e2] == [e0, e1, e2];
  }

  /** In hue mode, one more press and release of RGB_CONFIG leave it and
      every other RGB mode, again without an effect step. */
  lemma HueExit(s: Machine, t3: u32, t4: u32)
    requires Inv(s) && s.wheelSetHue
    ensures var o := Run(s, [KeyEvent(RgbConfigKey, true, t3), KeyEvent(RgbConfigKey, false, t4)]);
      && !o.state.wheelSetHue && !o.state.rgbCfgIndicate && !o.state.rgbCfgMode
      && o.state.mode == ModeNone && o.state.timer3s == 0
      && RgbStep !in o.effects
  {
    var e3, e4 := KeyEvent(RgbConfigKey, true, t3), KeyEvent(RgbConfigKey, false, t4);
    var s4 := Step(s, e3).state;
    assert s4.rgbCfgMode && !s4.wheelSetHue;
    RunOne(s, e3); RunOne(s4, e4);
    RunAppend(s, [e3], [e4]);
    assert [e3] + [e4] == [e3, e4];
  }
}
