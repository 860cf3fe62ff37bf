/** Shared shapes of the controllers: optional request fields, the error a
    handler passes to `next`, and JavaScript truthiness of request fields. */
module Common {

  datatype Option<+T> = None | Some(value: T)

  /** An `ErrorHandler(message, statusCode)` passed to `next`. A handler that
      omits the status code yields `status == None`. */
  datatype Failure = Failure(status: Option<nat>, message: string)

  /** What a handler ends with: the document it saves, or the error it reports. */
  datatype Result<+T> = Ok(value: T) | Err(failure: Failure)

  /** A check that either lets the request through or rejects it. */
  datatype Outcome = Pass | Fail(failure: Failure)

  /** A property read on `null` or `undefined` throws a TypeError, which the
      async wrapper forwards to the error middleware without a status code. */
  const TypeError := Failure(None, "TypeError")

  /** `!!v` for a string field: absent and empty strings are falsy. */
  predicate FilledStr(v: Option<string>)
  {
    v.Some? && v.value != ""
  }

  /** `!!v` for a numeric field: absent and zero are falsy. */
  predicate NonZero(v: Option<int>)
  {
    v.Some? && v.value != 0
  }
}
