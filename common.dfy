/** Types shared by every part of the mock API model. */
module Common {

  datatype Option<+T> = None | Some(value: T)

  /** A clock reading in milliseconds since the epoch (`Date.now()`, `new Date()`). */
  type Time = int

  /** Job identifiers, user identities and client addresses are plain strings. */
  type JobId = string
  type UserId = string
  type Address = string

  /** The identity of one WebSocket connection object, compared with `===`. */
  type Conn = nat

  /**
   * JavaScript truthiness of a request-body field that is expected to be a
   * string: `undefined`/`null` (None) and `""` are falsy.
   */
  predicate Present(field: Option<string>) {
    field.Some? && field.value != ""
  }

  /** ASCII letter case folding of one character: `A`-`Z` to `a`-`z`, everything else unchanged. */
  function LowerChar(c: char): char {
    if 'A' <= c <= 'Z' then (c as int + 32) as char else c
  }
}
