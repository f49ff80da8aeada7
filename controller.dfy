/** The alarm controller as the program runs it: global state updated in place by
    the touch handler, the beep routines, the LED writer and the loop body. */
module Controller {
  import opened Board
  import opened Touch
  import opened Policy
  import opened ControlLoop

  class AlarmController {
    /** Clock value taken at startup; touches are blocked relative to it. */
    const bootTime: int
    var alarmEnabled: bool
    var lastTouchTime: int
    var red: bool
    var yellow: bool
    var green: bool
    /** The PWM duty currently written to the buzzer. */
    var buzzerDuty: nat
    /** Every pulse the buzzer has played, oldest first. */
    ghost var buzzerLog: seq<Pulse>

    /** Between operations the buzzer is silent. */
    predicate Quiet()
      reads this
    {
      buzzerDuty == 0
    }

    ghost function Snapshot(): State
      reads this
    {
      State(alarmEnabled, lastTouchTime, Leds(red, yellow, green), buzzerLog)
    }

    /** Startup: the alarm is off, the debounce timestamp is 0 and the buzzer is silent.
        The program never sets the LEDs before the first good read, so their initial
        level is a parameter. */
    constructor (bootTime: int, initial: Leds)
      ensures this.bootTime == bootTime && Quiet()
      ensures Snapshot() == State(false, 0, initial, [])
    {
      this.bootTime := bootTime;
      alarmEnabled := false;
      lastTouchTime := 0;
      red, yellow, green := initial.red, initial.yellow, initial.green;
      buzzerDuty := 0;
      buzzerLog := [];
    }

    /** One acknowledgment pulse. */
    method BeepOnce()
      requires Quiet()
      modifies this`buzzerDuty, this`buzzerLog
      ensures Quiet() && buzzerLog == old(buzzerLog) + [AckPulse]
    {
      buzzerDuty := AckPulse.duty;   // sounds for AckPulse.onMs
      buzzerDuty := 0;               // rests for AckPulse.offMs
      buzzerLog := buzzerLog + [AckPulse];
    }

    /** Three warning pulses, one per loop round. */
    method WarningBeep()
      requires Quiet()
      modifies this`buzzerDuty, this`buzzerLog
      ensures Quiet() && buzzerLog == old(buzzerLog) + WarningPattern()
    {
      for i := 0 to WarningRepeats
        invariant Quiet()
        invariant buzzerLog == old(buzzerLog) + Repeat(WarningPulse, i)
      {
        buzzerDuty := WarningPulse.duty;   // sounds for WarningPulse.onMs
        buzzerDuty := 0;                   // rests for WarningPulse.offMs
        buzzerLog := buzzerLog + [WarningPulse];
      }
    }

    method SetLed(r: bool, y: bool, g: bool)
      modifies this`red, this`yellow, this`green
      ensures red == r && yellow == y && green == g
    {
      red := r;
      yellow := y;
      green := g;
    }

    /** The touch handler, called at time `now`; `t` is what the touch pad reads once
        the boot block is over. */
    method ReadTouch(now: int, t: int)
      requires Quiet()
      modifies this`alarmEnabled, this`lastTouchTime, this`buzzerDuty, this`buzzerLog
      ensures Quiet()
      ensures TouchState(alarmEnabled, lastTouchTime)
        == TouchStep(bootTime, old(TouchState(alarmEnabled, lastTouchTime)), now, t)
      ensures buzzerLog == old(buzzerLog)
        + if Recognised(bootTime, old(TouchState(alarmEnabled, lastTouchTime)), now, t) then [AckPulse] else []
    {
      if now - bootTime < TouchBlockMs {
        return;
      }
      if t < TouchThreshold && now - lastTouchTime > DebounceMs {
        alarmEnabled := !alarmEnabled;
        lastTouchTime := now;
        BeepOnce();
      }
    }

    /** One iteration of the main loop. `reading` is what the sensor gives, or the
        OSError it raises, in which case the LED update is skipped. */
    method Step(now: int, t: int, reading: Reading)
      requires Quiet()
      modifies this
      ensures Quiet()
      ensures Snapshot() == StepSpec(bootTime, old(Snapshot()), Input(now, t, reading))
    {
      ReadTouch(now, t);
      match reading {
        case SensorError =>
        case Measured(temp, humi) =>
          SetLed(false, false, false);
          var warning := false;
          if temp > TempLimit {
            warning := true;
            red := true;
            if alarmEnabled {
              WarningBeep();
            }
          } else if humi > HumiLimit {
            warning := true;
            yellow := true;
          }
          if !warning {
            green := true;
          }
      }
    }

    /** The main loop over a finite sequence of iteration inputs. */
    method Run(inputs: seq<Input>)
      requires Quiet()
      modifies this
      ensures Quiet()
      ensures Snapshot() == RunSpec(bootTime, old(Snapshot()), inputs)
    {
      ghost var start := Snapshot();
      for i := 0 to |inputs|
        invariant Quiet()
        invariant Snapshot() == RunSpec(bootTime, start, inputs[..i])
      {
        Step(inputs[i].now, inputs[i].touch, inputs[i].reading);
        assert inputs[..i + 1][..i] == inputs[..i];
      }
      assert inputs[..|inputs|] == inputs;
    }
  }
}
