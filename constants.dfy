/** Build-time configuration of the controller (constants.h). */
module Constants {
  /** Number of sensor boards ("kamaboko") chained on the ring. */
  const MAX_KAMABOKO_NUM: int := 4
  /** Sensors per board. */
  const MAX_EACH_SENS: int := 6
  /** All sensors of the instrument: the size of the pad ring. */
  const MAX_SENS: int := MAX_EACH_SENS * MAX_KAMABOKO_NUM
  /** Polyphony ceiling: the number of touch-point slots. */
  const MAX_TOUCH_POINTS: int := 4
}
