/** Vocabulary shared by every component of the model. */
module Base {

  /** Seconds of the one clock read by the service, Redis and Postgres. */
  type Time = int

  /** `AccessTTL` and `RefreshTTL`. */
  const ACCESS_TTL: Time := 900
  const REFRESH_TTL: Time := 1209600

  /** When the cleanup jobs revoke a session and delete a pending factor: thirty days, two hours. */
  const SESSION_LIFE: Time := 2592000
  const PENDING_LIFE: Time := 7200

  /** The largest value of a Postgres INTEGER: an increment past it is an error and changes nothing. */
  const INT4_MAX: nat := 2147483647

  datatype Option<+T> = None | Some(value: T)

  /**
   * What can happen to one store write: it is applied and acknowledged, it is
   * lost and reported as an error, or it is applied but reported as an error.
   */
  datatype Write = Applied | Lost | Late {
    predicate Took() { !Lost? }
    predicate Acked() { Applied? }
  }

  /** A transaction commits, fails at its n-th statement, or fails at commit with or without having committed. */
  datatype Tx = Committed | FailedAt(stmt: nat) | CommitFailed(applied: bool) {
    predicate Took() { Committed? || (CommitFailed? && applied) }
  }
}
