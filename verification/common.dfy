/** Vocabulary shared by every module of the model. */
module Common {

  datatype Option<+T> = None | Some(value: T)

  /** Milliseconds since the epoch, as JavaScript's Date.getTime() returns them. */
  type Instant = int

  const MINUTE := 60_000
  const SECOND := 1_000

  /** The largest value of a PostgreSQL bigint. */
  const MAX_BIGINT := 9_223_372_036_854_775_807
}
