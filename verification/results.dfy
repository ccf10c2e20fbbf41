/** Option and Result values used throughout the model.

    `Option` stands for a JavaScript value that may be `undefined` or `null`;
    `Result` stands for a computation that may throw. */
module Results {

  datatype Option<+T> = None | Some(value: T)

  datatype Result<+T, +E> = Success(value: T) | Failure(error: E)

  /** JavaScript truthiness of an optional string: present and not empty. */
  predicate IsNonEmpty(s: Option<string>) {
    s.Some? && s.value != ""
  }

  /** `s || undefined` for an optional string: an empty string becomes absent. */
  function NonEmptyOrNone(s: Option<string>): (r: Option<string>)
    ensures r.Some? <==> IsNonEmpty(s)
    ensures r.Some? ==> r == s
  {
    if IsNonEmpty(s) then s else None
  }
}
