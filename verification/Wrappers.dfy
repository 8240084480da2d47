/** Small value types shared by every handler and component model. */
module Wrappers {

  /** A JavaScript value that may be `undefined` (a key missing from a body,
      a localStorage entry that was never written). */
  datatype Option<+T> = None | Some(value: T) {

    /** The `x || default` idiom for values whose every present value is truthy
        (arrays, objects): the value when present, else the default. */
    function GetOr(default: T): T {
      match this
      case Some(v) => v
      case None => default
    }
  }

  /** The request method a serverless handler dispatches on. */
  datatype Method = Get | Post | Put | Delete | Patch | Options | Head

  /** An HTTP answer: a status code with either the `{ error }` text or the
      success payload. */
  datatype Reply<+T> =
    | Failure(status: int, error: string)
    | Success(status: int, value: T)

  /** The `{ error }` every handler answers with status 500 when the
      database refuses a save. */
  const ServerError := "Server error"

  /** What a handler answers together with the store it leaves behind. */
  datatype Outcome<+T, +S> = Outcome(reply: Reply<T>, state: S)

  /** Look a key up in a JSON body whose values are all strings. */
  function Field(body: map<string, string>, key: string): (r: Option<string>)
    ensures r.Some? <==> key in body
    ensures r.Some? ==> r.value == body[key]
  {
    if key in body then Some(body[key]) else None
  }
}
