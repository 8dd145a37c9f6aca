/** Process-wide configuration values that the numerical core consumes.
    The configuration file itself is not part of this model: the values below
    are the customary ones (an hourly reporting interval and a 1e-5 accuracy),
    and every proof uses only `INTERVAL > 0` and `0 < MAX_ACCURACY < 1`. */
module Config {

  /** Length of the reporting interval, in seconds. */
  const INTERVAL: real := 3600.0

  /** Convergence tolerance and "close enough to certainty" cut-off. */
  const MAX_ACCURACY: real := 0.00001
}
