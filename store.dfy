/** Results of calls into the case database, and references that may be null. */
module Store {

  /** What a call into the case database gave back: a value, or the checked
      exception (TskException / TskCoreException) it threw. */
  datatype Fetch<+T> = Ok(value: T) | Failed

  /** A reference that may be null. */
  datatype Option<+T> = None | Some(value: T)
}
