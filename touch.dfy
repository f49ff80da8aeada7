/** The touch-toggle state machine: the alarm flag and the debounce timestamp. */
module Touch {
  import opened Board

  datatype TouchState = TouchState(alarmEnabled: bool, lastTouchTime: int)

  /** A touch is recognised when the boot block is over, the intensity is strictly
      below the threshold and strictly more than the debounce window has passed
      since the last recognised touch. Timestamps are unbounded integers. */
  predicate Recognised(bootTime: int, s: TouchState, now: int, t: int)
  {
    now - bootTime >= TouchBlockMs && t < TouchThreshold && now - s.lastTouchTime > DebounceMs
  }

  /** The state after one call of the touch handler at time `now` with intensity `t`. */
  function TouchStep(bootTime: int, s: TouchState, now: int, t: int): (r: TouchState)
    // boot block: nothing changes in the first 2000 ms
    ensures now - bootTime < TouchBlockMs ==> r == s
    // strict threshold: an intensity at or above 300 never toggles
    ensures t >= TouchThreshold ==> r == s
    // strict debounce: nothing changes within 800 ms of the last recognised touch
    ensures now - s.lastTouchTime <= DebounceMs ==> r == s
    // a recognised touch flips the flag and records the time
    ensures Recognised(bootTime, s, now, t) ==> r.alarmEnabled == !s.alarmEnabled && r.lastTouchTime == now
    // the flag changes exactly when the touch is recognised
    ensures r.alarmEnabled != s.alarmEnabled <==> Recognised(bootTime, s, now, t)
  {
    if now - bootTime < TouchBlockMs then s
    else if t < TouchThreshold && now - s.lastTouchTime > DebounceMs then TouchState(!s.alarmEnabled, now)
    else s
  }
}
