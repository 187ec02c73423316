/** An optional value used across the model. */
module Wrappers {

  /** A value that may be absent: a missing map entry, an unset request field,
      a `null` document. */
  datatype Option<+T> = None | Some(value: T)

  /** JavaScript truthiness of an optional string: absent and "" are falsy. */
  predicate Truthy(q: Option<string>) {
    q.Some? && q.value != ""
  }
}
