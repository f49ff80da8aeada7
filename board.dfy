/** Constants, output values and buzzer pulse logs shared by the alarm controller.
    Hardware drivers are abstracted: a sensor reading is a value, an LED is a
    boolean, and a buzzer pulse is a log entry carrying its stated durations. */
module Board {

  /** Touch intensity strictly below this counts as a touch. */
  const TouchThreshold: int := 300
  /** Touches are ignored for this long after boot. */
  const TouchBlockMs: int := 2000
  /** A touch is recognised only more than this long after the last recognised one. */
  const DebounceMs: int := 800
  /** Temperature strictly above this lights the red LED. */
  const TempLimit: int := 30
  /** Humidity strictly above this lights the yellow LED (when the temperature is normal). */
  const HumiLimit: int := 90
  /** PWM duty written while the buzzer sounds. */
  const BeepDuty: nat := 800
  /** Number of pulses in the warning pattern. */
  const WarningRepeats: nat := 3

  /** One buzzer pulse: the duty written, then how long it sounds and how long it rests. */
  datatype Pulse = Pulse(duty: nat, onMs: nat, offMs: nat)

  /** The acknowledgment beep played when the alarm is toggled. */
  const AckPulse: Pulse := Pulse(BeepDuty, 200, 100)
  /** One pulse of the warning pattern. */
  const WarningPulse: Pulse := Pulse(BeepDuty, 150, 100)

  /** The three status LEDs, true meaning lit. */
  datatype Leds = Leds(red: bool, yellow: bool, green: bool)

  predicate ExactlyOneOn(l: Leds) {
    (if l.red then 1 else 0) + (if l.yellow then 1 else 0) + (if l.green then 1 else 0) == 1
  }

  /** What one attempt to read the DHT11 gives: integer values, or the OSError it raises. */
  datatype Reading = Measured(temp: int, humi: int) | SensorError

  /** The inputs of one control-loop iteration: the clock, the touch pad and the sensor. */
  datatype Input = Input(now: int, touch: int, reading: Reading)

  /** `n` copies of pulse `p`, in order. */
  function Repeat(p: Pulse, n: nat): seq<Pulse>
  {
    if n == 0 then [] else Repeat(p, n - 1) + [p]
  }

  /** The pulses of the warning pattern. */
  function WarningPattern(): seq<Pulse>
  {
    Repeat(WarningPulse, WarningRepeats)
  }

  /** How many entries of `log` are the pulse `p`. */
  function Count(log: seq<Pulse>, p: Pulse): nat
  {
    if log == [] then 0
    else Count(log[..|log| - 1], p) + (if log[|log| - 1] == p then 1 else 0)
  }

  lemma {:induction false} CountAppend(a: seq<Pulse>, b: seq<Pulse>, p: Pulse)
    ensures Count(a + b, p) == Count(a, p) + Count(b, p)
  {
    if b != [] {
      assert (a + b)[..|a + b| - 1] == a + b[..|b| - 1];
      CountAppend(a, b[..|b| - 1], p);
    } else {
      assert a + b == a;
    }
  }

  lemma {:induction false} CountRepeat(p: Pulse, n: nat, q: Pulse)
    ensures |Repeat(p, n)| == n
    ensures Count(Repeat(p, n), q) == if p == q then n else 0
  {
    if n > 0 {
      CountRepeat(p, n - 1, q);
      assert Repeat(p, n)[..n - 1] == Repeat(p, n - 1);
    }
  }

  /** The warning pattern is three warning pulses and holds no acknowledgment pulse. */
  lemma WarningPatternCounts()
    ensures |WarningPattern()| == WarningRepeats
    ensures Count(WarningPattern(), WarningPulse) == WarningRepeats
    ensures Count(WarningPattern(), AckPulse) == 0
  {
    CountRepeat(WarningPulse, WarningRepeats, WarningPulse);
    CountRepeat(WarningPulse, WarningRepeats, AckPulse);
  }
}
