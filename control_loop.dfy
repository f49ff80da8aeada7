/** One control-loop iteration and finite runs of the loop, as functions over the
    observable state, with the properties a run keeps. */
module ControlLoop {
  import opened Board
  import opened Touch
  import opened Policy

  /** Everything the loop changes: the alarm flag, the debounce timestamp, the LEDs
      and the log of buzzer pulses played so far. */
  datatype State = State(alarmEnabled: bool, lastTouchTime: int, leds: Leds, buzzer: seq<Pulse>)

  function TouchOf(st: State): TouchState
  {
    TouchState(st.alarmEnabled, st.lastTouchTime)
  }

  /** The acknowledgment pulses the touch handler plays for this input. */
  function AckFor(bootTime: int, st: State, x: Input): seq<Pulse>
  {
    if Recognised(bootTime, TouchOf(st), x.now, x.touch) then [AckPulse] else []
  }

  /** One iteration: handle the touch, then (on a good read) set the LEDs and maybe warn. */
  function StepSpec(bootTime: int, st: State, x: Input): (r: State)
    // the touch is handled first, whatever the sensor does
    ensures TouchOf(r) == TouchStep(bootTime, TouchOf(st), x.now, x.touch)
    // the buzzer log only grows
    ensures |st.buzzer| <= |r.buzzer| && r.buzzer[..|st.buzzer|] == st.buzzer
    // OSError: the LEDs keep their previous state and at most the acknowledgment beep plays
    ensures x.reading.SensorError? ==> r.leds == st.leds && (r.buzzer == st.buzzer || r.buzzer == st.buzzer + [AckPulse])
    // good read: exactly one LED, chosen by the reading
    ensures x.reading.Measured? ==> ExactlyOneOn(r.leds) && r.leds == LedsFor(x.reading.temp, x.reading.humi)
  {
    var t := TouchStep(bootTime, TouchOf(st), x.now, x.touch);
    var log := st.buzzer + AckFor(bootTime, st, x);
    match x.reading
    case SensorError => State(t.alarmEnabled, t.lastTouchTime, st.leds, log)
    case Measured(temp, humi) =>
      var o := Respond(temp, humi, t.alarmEnabled);
      assert (log + o.beeps)[..|st.buzzer|] == st.buzzer;
      State(t.alarmEnabled, t.lastTouchTime, o.leds, log + o.beeps)
  }

  /** The acknowledgment beep plays exactly when the touch is recognised, and the three
      warning pulses exactly when the read is good, the temperature is above the limit and
      the alarm is enabled after this iteration's touch handling. */
  lemma StepBuzzer(bootTime: int, st: State, x: Input)
    ensures var r := StepSpec(bootTime, st, x);
      && Count(r.buzzer, AckPulse) == Count(st.buzzer, AckPulse)
           + (if Recognised(bootTime, TouchOf(st), x.now, x.touch) then 1 else 0)
      && Count(r.buzzer, WarningPulse) == Count(st.buzzer, WarningPulse)
           + (if x.reading.Measured? && x.reading.temp > TempLimit && r.alarmEnabled then WarningRepeats else 0)
  {
    var t := TouchStep(bootTime, TouchOf(st), x.now, x.touch);
    var ack := AckFor(bootTime, st, x);
    assert Count([AckPulse], AckPulse) == 1 && Count([AckPulse], WarningPulse) == 0 by {
      assert [AckPulse][..0] == [];
    }
    CountAppend(st.buzzer, ack, AckPulse);
    CountAppend(st.buzzer, ack, WarningPulse);
    match x.reading
    case SensorError =>
    case Measured(temp, humi) =>
      var o := Respond(temp, humi, t.alarmEnabled);
      CountAppend(st.buzzer + ack, o.beeps, AckPulse);
      CountAppend(st.buzzer + ack, o.beeps, WarningPulse);
  }

  /** A finite run of the loop over `ins`, oldest input first. */
  function RunSpec(bootTime: int, st: State, ins: seq<Input>): State
  {
    if ins == [] then st
    else StepSpec(bootTime, RunSpec(bootTime, st, ins[..|ins| - 1]), ins[|ins| - 1])
  }

  /** The times of the touches recognised during a run, in order. */
  function ToggleTimes(bootTime: int, st: State, ins: seq<Input>): seq<int>
  {
    if ins == [] then []
    else
      var prev := ins[..|ins| - 1];
      var x := ins[|ins| - 1];
      ToggleTimes(bootTime, st, prev)
        + (if Recognised(bootTime, TouchOf(RunSpec(bootTime, st, prev)), x.now, x.touch) then [x.now] else [])
  }

  /** `r` is a sequence of touch times more than the debounce window after `base`
      and pairwise more than the debounce window apart. */
  predicate Spaced(r: seq<int>, base: int)
  {
    && (forall i :: 0 <= i < |r| ==> r[i] - base > DebounceMs)
    && (forall i, j :: 0 <= i < j < |r| ==> r[j] - r[i] > DebounceMs)
  }

  function LastOr(r: seq<int>, base: int): int
  {
    if r == [] then base else r[|r| - 1]
  }

  lemma SpacedAppend(r: seq<int>, base: int, e: int)
    requires Spaced(r, base) && e - LastOr(r, base) > DebounceMs
    ensures Spaced(r + [e], base) && LastOr(r + [e], base) == e
  {
    forall i | 0 <= i < |r|
      ensures e - r[i] > DebounceMs && e - base > DebounceMs
    {
      assert r[i] <= r[|r| - 1] by {
        if i < |r| - 1 { assert r[|r| - 1] - r[i] > DebounceMs; }
      }
    }
  }

  /** One step of `ToggleTimes`. */
  lemma ToggleTimesLast(bootTime: int, st: State, ins: seq<Input>)
    requires ins != []
    ensures var prev := ins[..|ins| - 1];
      var x := ins[|ins| - 1];
      var sp := RunSpec(bootTime, st, prev);
      && RunSpec(bootTime, st, ins) == StepSpec(bootTime, sp, x)
      && ToggleTimes(bootTime, st, ins)
         == ToggleTimes(bootTime, st, prev)
            + (if Recognised(bootTime, TouchOf(sp), x.now, x.touch) then [x.now] else [])
      && RunSpec(bootTime, st, ins).lastTouchTime
         == if Recognised(bootTime, TouchOf(sp), x.now, x.touch) then x.now else sp.lastTouchTime
  {
  }

  /** Recognised touches all lie after the boot block and are pairwise more than the
      debounce window apart (so they strictly increase), and the debounce timestamp is
      the last of them. */
  lemma {:induction false} ToggleTimesSpaced(bootTime: int, st: State, ins: seq<Input>)
    ensures var r := ToggleTimes(bootTime, st, ins);
      && (forall i :: 0 <= i < |r| ==> r[i] - bootTime >= TouchBlockMs)
      && Spaced(r, st.lastTouchTime)
      && RunSpec(bootTime, st, ins).lastTouchTime == LastOr(r, st.lastTouchTime)
  {
    if ins != [] {
      var prev := ins[..|ins| - 1];
      var x := ins[|ins| - 1];
      ToggleTimesSpaced(bootTime, st, prev);
      ToggleTimesLast(bootTime, st, ins);
      var rp := ToggleTimes(bootTime, st, prev);
      var sp := RunSpec(bootTime, st, prev);
      if Recognised(bootTime, TouchOf(sp), x.now, x.touch) {
        SpacedAppend(rp, st.lastTouchTime, x.now);
      }
    }
  }

  /** The alarm flag after a run is the initial flag flipped once per recognised touch. */
  lemma {:induction false} AlarmParity(bootTime: int, st: State, ins: seq<Input>)
    ensures RunSpec(bootTime, st, ins).alarmEnabled
      == (st.alarmEnabled != (|ToggleTimes(bootTime, st, ins)| % 2 == 1))
  {
    if ins != [] {
      var prev := ins[..|ins| - 1];
      var x := ins[|ins| - 1];
      AlarmParity(bootTime, st, prev);
      ToggleTimesLast(bootTime, st, ins);
      var sp := RunSpec(bootTime, st, prev);
      var n := |ToggleTimes(bootTime, st, prev)|;
      if Recognised(bootTime, TouchOf(sp), x.now, x.touch) {
        assert |ToggleTimes(bootTime, st, ins)| == n + 1;
        assert ((n + 1) % 2 == 1) == !(n % 2 == 1);
      } else {
        assert |ToggleTimes(bootTime, st, ins)| == n;
      }
    }
  }

  /** Every recognised touch plays exactly one acknowledgment beep, and nothing else does. */
  lemma {:induction false} AckBeepsMatchToggles(bootTime: int, st: State, ins: seq<Input>)
    ensures Count(RunSpec(bootTime, st, ins).buzzer, AckPulse)
      == Count(st.buzzer, AckPulse) + |ToggleTimes(bootTime, st, ins)|
  {
    if ins != [] {
      var prev := ins[..|ins| - 1];
      AckBeepsMatchToggles(bootTime, st, prev);
      StepBuzzer(bootTime, RunSpec(bootTime, st, prev), ins[|ins| - 1]);
    }
  }

  /** Two touches at most the debounce window apart toggle the alarm at most once, and
      exactly once when the first of them is recognised. */
  lemma CloseTouchesToggleOnce(bootTime: int, st: State, x: Input, y: Input)
    requires y.now - x.now <= DebounceMs
    ensures |ToggleTimes(bootTime, st, [x, y])| <= 1
    ensures Recognised(bootTime, TouchOf(st), x.now, x.touch) ==> |ToggleTimes(bootTime, st, [x, y])| == 1
  {
    assert [x, y][..1] == [x];
    assert [x][..0] == [];
    var s1 := StepSpec(bootTime, st, x);
    assert RunSpec(bootTime, st, [x]) == s1;
    assert ToggleTimes(bootTime, st, [x])
      == if Recognised(bootTime, TouchOf(st), x.now, x.touch) then [x.now] else [];
    if Recognised(bootTime, TouchOf(st), x.now, x.touch) {
      assert s1.lastTouchTime == x.now;
    }
    assert ToggleTimes(bootTime, st, [x, y])
      == ToggleTimes(bootTime, st, [x])
         + (if Recognised(bootTime, TouchOf(s1), y.now, y.touch) then [y.now] else []);
  }

  /** The LEDs after a run are those of the last good read, or the initial ones when
      every read failed. */
  function LastReadLeds(initial: Leds, ins: seq<Input>): Leds
  {
    if ins == [] then initial
    else match ins[|ins| - 1].reading
      case Measured(temp, humi) => LedsFor(temp, humi)
      case SensorError => LastReadLeds(initial, ins[..|ins| - 1])
  }

  lemma {:induction false} RunLedsShowLastRead(bootTime: int, st: State, ins: seq<Input>)
    ensures RunSpec(bootTime, st, ins).leds == LastReadLeds(st.leds, ins)
  {
    if ins != [] {
      RunLedsShowLastRead(bootTime, st, ins[..|ins| - 1]);
    }
  }

  /** A run in which every read fails leaves the LEDs as they were. */
  lemma {:induction false} FailedReadsKeepLeds(bootTime: int, st: State, ins: seq<Input>)
    requires forall i :: 0 <= i < |ins| ==> ins[i].reading.SensorError?
    ensures RunSpec(bootTime, st, ins).leds == st.leds
  {
    if ins != [] {
      FailedReadsKeepLeds(bootTime, st, ins[..|ins| - 1]);
    }
  }

  /** A run with no good read above the temperature limit never plays a warning pulse. */
  lemma {:induction false} CoolRunNeverWarns(bootTime: int, st: State, ins: seq<Input>)
    requires forall i :: 0 <= i < |ins| ==> !(ins[i].reading.Measured? && ins[i].reading.temp > TempLimit)
    ensures Count(RunSpec(bootTime, st, ins).buzzer, WarningPulse) == Count(st.buzzer, WarningPulse)
  {
    if ins != [] {
      var prev := ins[..|ins| - 1];
      CoolRunNeverWarns(bootTime, st, prev);
      StepBuzzer(bootTime, RunSpec(bootTime, st, prev), ins[|ins| - 1]);
    }
  }

  /** With the alarm disabled and no touch recognised during the run, no warning pulse plays. */
  lemma {:induction false} DisabledRunNeverWarns(bootTime: int, st: State, ins: seq<Input>)
    requires !st.alarmEnabled && ToggleTimes(bootTime, st, ins) == []
    ensures Count(RunSpec(bootTime, st, ins).buzzer, WarningPulse) == Count(st.buzzer, WarningPulse)
    ensures !RunSpec(bootTime, st, ins).alarmEnabled
  {
    if ins != [] {
      var prev := ins[..|ins| - 1];
      assert ToggleTimes(bootTime, st, prev) == [];
      DisabledRunNeverWarns(bootTime, st, prev);
      StepBuzzer(bootTime, RunSpec(bootTime, st, prev), ins[|ins| - 1]);
    }
  }
}
