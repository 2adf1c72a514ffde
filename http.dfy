/** The shape of what an Express handler or middleware does with a request: it either
    answers with a status code and a JSON `message`, or hands the request on (`next()`),
    possibly with something attached to it (`req.admin`). */
module Http {

  /** `res.status(status).json({ success, message })`. */
  datatype Response = Response(status: nat, message: string) {
    predicate Success() { 200 <= status < 300 }
  }

  /** What a guard decides: call `next()` with `value` attached, or answer at once. */
  datatype Outcome<+T> = Pass(value: T) | Stop(response: Response)

  /** The answer of every `catch` block that is not a validation error. */
  function ServerError(message: string): Response { Response(500, message) }
}
