/** Vocabulary shared by every route module: optional attributes, user ids
    and the abstract clock that stands in for `datetime.utcnow().isoformat()`. */
module Base {

  /** An item attribute that may be absent (or `None` in a payload). */
  datatype Option<+T> = None | Some(value: T)

  /** The caller identity carried by the `x-user-id` header. */
  type UserId = string

  /** Timestamps. The source stores ISO-8601 strings of one fixed UTC format,
      whose string order is their chronological order; the model keeps the order only. */
  type Time = nat
}
