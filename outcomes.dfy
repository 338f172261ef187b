/** Values that stand in for what the pages receive from outside: the result of an
    HTTP request, and JavaScript's nullable values. */
module Outcomes {

  /** What an awaited request produced: the response payload, or a rejection that the
      page's `catch` block logs and otherwise ignores. */
  datatype Outcome<+T> = Ok(payload: T) | Err

  /** A `T | null` (or `T | undefined`) state value. */
  datatype Option<+T> = None | Some(value: T)
}
