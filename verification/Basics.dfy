/** What every component uses: optional values, and lengths of time in seconds. */
module Basics {
  datatype Option<+T> = None | Some(value: T)

  const HOUR: int := 3600
  const DAY: int := 86400
}
