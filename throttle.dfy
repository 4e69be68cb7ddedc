/// The sampling throttle both listeners put in front of their message handler:
/// a global last_processed_time compared with check_interval.
module Throttle {

  /** check_interval when the configuration file does not set one. */
  const DEFAULT_CHECK_INTERVAL := 60

  /** last_processed_time before the first message arrives. */
  const INITIAL_LAST_PROCESSED := 0

  /** A message arriving at `now` is processed unless fewer than checkInterval
      seconds have passed since the last processed one. */
  predicate Admits(lastProcessedTime: int, checkInterval: int, now: int) {
    !(now - lastProcessedTime < checkInterval)
  }
}
