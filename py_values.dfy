/**
 * The few Python values the request handlers touch: JSON values after parsing,
 * their `str()` rendering, the text of a `KeyError`, and the HTTP error a handler
 * raises when it catches an exception.
 */
module PyValues {
  import opened Wrappers

  /**
   * One JSON value as a request handler sees it: a string, or any other value
   * (number, boolean, null, object, nested list) together with the text that
   * Python's `str()` renders for it.
   */
  datatype JsonValue = SString(s: string) | SOther(text: string)

  /** Python's `str(v)`: a string is returned as it is. */
  function Str(v: JsonValue): (r: string)
    ensures v.SString? ==> r == v.s
  {
    match v
    case SString(s) => s
    case SOther(text) => text
  }

  /** `str(KeyError(key))`: the key's repr, in single quotes. */
  function KeyErrorText(key: string): string {
    "'" + key + "'"
  }

  /** FastAPI's `HTTPException(status_code, detail)`. */
  datatype HttpError = HttpError(status: int, detail: string)

  const InternalServerError: int := 500
  const UnprocessableEntity: int := 422

  /**
   * The handlers' `except Exception as e: raise HTTPException(500, str(e))`:
   * a value passes through, an exception becomes a 500 carrying its message.
   */
  function AsHttp<T>(r: Result<T, string>): (h: Result<T, HttpError>)
    ensures h.Success? <==> r.Success?
    ensures h.Success? ==> h.value == r.value
    ensures h.Failure? ==> h.error == HttpError(InternalServerError, r.error)
  {
    match r
    case Success(v) => Success(v)
    case Failure(e) => Failure(HttpError(InternalServerError, e))
  }
}
