# ESP32 environmental alarm controller — Dafny model

The program polls a DHT11 temperature/humidity sensor every two seconds. It drives a
red, a yellow and a green LED and a PWM buzzer. One capacitive touch pad toggles the
alarm on and off. This project models two things and proves properties of both:

- the touch-toggle state machine (`read_touch`): a 2000 ms boot block, a strict
  intensity threshold of 300, a strict 800 ms debounce, and a toggle that records
  the time and plays one acknowledgment beep;
- one iteration of the main loop: the touch handler runs first, then a good reading
  clears the LEDs and lights exactly one of them. Temperature above 30 has priority
  over humidity above 90. The warning beep plays only on the red branch and only
  with the alarm enabled. A sensor `OSError` skips the LED update.

Layout:

- `board.dfy` (module `Board`): constants, LED, reading and pulse values, and counting
  over the buzzer pulse log.
- `touch.dfy` (module `Touch`): the touch state machine as a function.
- `policy.dfy` (module `Policy`): the reading-to-output classification as a function.
- `control_loop.dfy` (module `ControlLoop`): one iteration (`StepSpec`) and finite runs
  (`RunSpec`) as functions over the observable state, with lemmas over whole runs.
- `controller.dfy` (module `Controller`): class `AlarmController`, which holds the
  program's globals as fields. Its methods update them step by step, in the source's
  statement order, and are proved equal to the functions above.

The hardware is replaced by values. The clock value `now`, the touch intensity `t` and
the sensor outcome (`Measured(temp, humi)` or `SensorError`) are parameters. The LEDs
are boolean fields. The buzzer is its current duty plus a ghost log with one entry
per `duty(800)` pulse. Each entry is tagged with its stated on and off durations.

What the program has, and so what the model has:

- One touch pad (main.py:27), with no pause or recovery timer.
- A humidity limit of `> 90` (main.py:117).
- A `warning_beep` that always plays three pulses, with no pause check (main.py:54-58).

## Model

| member | source | states |
|---|---|---|
| Touch.TouchStep | main.py:73-86 | Three things leave the state unchanged: fewer than 2000 ms since boot, an intensity of 300 or more, or at most 800 ms since the last recognised touch. A recognised touch negates the flag and sets the timestamp to `now`. The flag changes exactly when the touch is recognised. |
| Policy.LedsFor | main.py:105-123 | Exactly one LED is lit. Red iff temp > 30. Yellow iff temp <= 30 and humi > 90. Green iff temp <= 30 and humi <= 90. So with temp > 30, yellow stays off whatever the humidity. |
| Policy.Respond | main.py:107-123 | The LEDs are `LedsFor` of the reading. Pulses are played iff the red LED is chosen and the alarm is enabled. When played, they are the warning pattern: three warning pulses and no acknowledgment pulse. |
| Board.WarningPatternCounts | main.py:53-58 | The warning pattern has three entries. All three are warning pulses (150 ms on, 100 ms off) and none is an acknowledgment pulse. |
| ControlLoop.StepSpec | main.py:95-126 | The touch is handled first, whatever the sensor does. The buzzer log only grows. On `SensorError` the LEDs keep their previous values and at most the acknowledgment pulse is added. On a good read exactly one LED is lit, as `LedsFor` chooses. |
| ControlLoop.StepBuzzer | main.py:84-114 | In one iteration the acknowledgment count grows by one iff the touch is recognised. The warning count grows by three iff the read is good, temp > 30, and the alarm is enabled after this iteration's touch handling. Otherwise it does not grow. |
| ControlLoop.ToggleTimesSpaced | main.py:78-86 | Over any run, every recognised touch is at least 2000 ms after boot. Each is more than 800 ms after the initial debounce timestamp. Any two are more than 800 ms apart. The final debounce timestamp is the time of the last recognised touch, or the initial one if there was none. |
| ControlLoop.AlarmParity | main.py:84-86 | After a run, the alarm flag is the initial flag flipped once per recognised touch. |
| ControlLoop.AckBeepsMatchToggles | main.py:84-89 | Over a run, the number of acknowledgment pulses added equals the number of recognised touches. |
| ControlLoop.CloseTouchesToggleOnce | main.py:84-86 | Two touches at most 800 ms apart toggle the alarm at most once, and exactly once when the first is recognised. |
| ControlLoop.RunLedsShowLastRead | main.py:98-126 | After a run, the LEDs show the classification of the last good read. If every read failed, they keep their initial values. |
| ControlLoop.FailedReadsKeepLeds | main.py:125-126 | A run in which every sensor read fails leaves the LEDs unchanged. |
| ControlLoop.CoolRunNeverWarns | main.py:110-119 | If no good read in a run is above 30 degrees, no warning pulse is added. This covers the yellow branch, the green branch and failed reads. |
| ControlLoop.DisabledRunNeverWarns | main.py:113-114 | If the alarm starts disabled and no touch is recognised, it stays disabled and no warning pulse is added. |
| Controller.AlarmController.constructor | main.py:20-40 | At startup the alarm is disabled, the debounce timestamp is 0, the buzzer duty is 0 and the pulse log is empty. The boot time is recorded. |
| Controller.AlarmController.BeepOnce | main.py:46-50 | Adds exactly one acknowledgment pulse (200 ms on, 100 ms off) and leaves the duty at 0. |
| Controller.AlarmController.WarningBeep | main.py:53-58 | The loop adds exactly the three-pulse warning pattern and leaves the duty at 0. |
| Controller.AlarmController.SetLed | main.py:64-67 | Writes the three LED levels and nothing else. |
| Controller.AlarmController.ReadTouch | main.py:73-89 | The new flag and timestamp are `TouchStep` of the old ones. One acknowledgment pulse is added iff the touch is recognised. The LEDs are not touched. |
| Controller.AlarmController.Step | main.py:96-126 | The whole new state (flag, timestamp, LEDs, pulse log) is `StepSpec` of the old state and the iteration's inputs. These are the step-by-step pin writes with the `warning` flag. |
| Controller.AlarmController.Run | main.py:95-128 | Running the loop over a finite sequence of inputs produces `RunSpec` of the initial state. |

## Left out

- Hardware drivers (`Pin`, `PWM`, `TouchPad`, `dht.DHT11`, `buzzer.freq(2000)`) are replaced by parameters and fields.
- `time.sleep` inside the beeps and the 2 s loop sleep are not modelled as delays. Real-time duration cannot be verified. The beep durations appear only as tags on the pulse log entries.
- `ticks_ms`/`ticks_diff` wrap-around is not modelled. Timestamps are unbounded integers and differences are plain subtraction. On the device `ticks_diff` is a signed difference that wraps at half the tick period (about 6.2 days). After that much uptime the boot-block test at main.py:78 can hold again. So the touch guarantees (`Touch.TouchStep` and the run lemmas built on it) hold only for uptimes and touch spacings below half the tick period.
- The `print` diagnostics (console output) are left out.
- The `while True` loop runs forever. `Run` models a finite prefix of its iterations.
- An `OSError` is modelled only as the reading's outcome, i.e. raised by the sensor before any LED is written. The model does not cover an error raised by an LED or buzzer write.
- The initial level of the LED pins is not set by the program. The constructor takes it as a parameter.
