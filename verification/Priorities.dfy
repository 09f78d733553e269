/** The priority levels and the two tables that say how hard each one is throttled. */
module Priorities {
  import opened Polling

  datatype Priority = VeryLow | Low | Middle | High | VeryHigh

  /** Milliseconds of one count-mode backoff, before jitter. */
  function FixedIntervalCount(p: Priority): Option<nat> {
    match p
    case VeryLow => Some(30)
    case Low => Some(20)
    case Middle => Some(13)
    case High => Some(10)
    case VeryHigh => None
  }

  /** Twice the milliseconds slept for each ten measured microseconds in time mode. */
  function FixedIntervalTimeMs(p: Priority): Option<nat> {
    match p
    case VeryLow => Some(9)
    case Low => Some(7)
    case Middle => Some(5)
    case High => Some(3)
    case VeryHigh => None
  }
}
