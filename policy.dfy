/** The policy that turns a successful sensor reading into LED and buzzer output. */
module Policy {
  import opened Board

  /** The LEDs lit for a reading: temperature first, then humidity, else normal. */
  function LedsFor(temp: int, humi: int): (l: Leds)
    ensures ExactlyOneOn(l)
    ensures l.red <==> temp > TempLimit
    ensures l.yellow <==> temp <= TempLimit && humi > HumiLimit
    ensures l.green <==> temp <= TempLimit && humi <= HumiLimit
  {
    if temp > TempLimit then Leds(true, false, false)
    else if humi > HumiLimit then Leds(false, true, false)
    else Leds(false, false, true)
  }

  /** What the loop body outputs for a good read: the LEDs and the pulses played. */
  datatype Response = Response(leds: Leds, beeps: seq<Pulse>)

  function Respond(temp: int, humi: int, alarmEnabled: bool): (o: Response)
    ensures o.leds == LedsFor(temp, humi)
    // only the red branch beeps, and only with the alarm enabled
    ensures o.beeps != [] <==> o.leds.red && alarmEnabled
    ensures o.beeps != [] ==> Count(o.beeps, WarningPulse) == WarningRepeats && Count(o.beeps, AckPulse) == 0
    ensures o.beeps == [] || o.beeps == WarningPattern()
  {
    WarningPatternCounts();
    if temp > TempLimit then Response(LedsFor(temp, humi), if alarmEnabled then WarningPattern() else [])
    else Response(LedsFor(temp, humi), [])
  }
}
