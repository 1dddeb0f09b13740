/** Results that may be missing, and the one label every part of the program knows. */
module Common {
  datatype Option<+T> = None | Some(value: T)

  /** A result, or a failure whose message is not modelled. */
  datatype Result<+T> = Ok(value: T) | Err

  /** The label that holds a series' metric name. */
  const METRIC_NAME := "__name__"
}
