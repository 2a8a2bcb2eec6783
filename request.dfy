/**
 * The invocation event and the parameters the handler reads from it,
 * with their defaults: `code` defaults to the empty text, `language` to
 * "c" (lowered), `time_limit` to one second.
 */
module Request {
  import opened Wrappers
  import opened Text

  /**
   * A value looked up in the event: absent, present with a type the
   * handler can use, or present with a type its conversion rejects;
   * `detail` is the text of the exception the conversion then raises.
   */
  datatype Field<T> = Missing | Present(value: T) | IllTyped(detail: string)

  /**
   * The event fields that decide the response. The time limit is in
   * whole milliseconds. The stdin payload (inline `input` or `s3_key`)
   * only feeds the program and is part of the host's view.
   */
  datatype Event = Event(code: Field<string>, language: Field<string>, timeLimitMs: Field<int>)

  const DefaultLanguage: string := "c"
  const DefaultTimeLimitMs: int := 1000

  /** `event.get('language', 'c').lower()`. */
  function Language(f: Field<string>): (r: Result<string, string>)
    ensures r.Ok? ==> forall i :: 0 <= i < |r.value| ==> !IsUpper(r.value[i])
    ensures f.Missing? ==> r == Ok(DefaultLanguage)
    ensures f.Present? ==> r == Ok(Lower(f.value))
    ensures f.IllTyped? ==> r == Err(f.detail)
  {
    match f
    case Missing => LowerKeepsLowercase(DefaultLanguage); Ok(Lower(DefaultLanguage))
    case Present(s) => Ok(Lower(s))
    case IllTyped(e) => Err(e)
  }

  /** `float(event.get('time_limit', 1.0))`, in milliseconds. */
  function BaseLimitMs(f: Field<int>): (r: Result<int, string>)
    ensures f.Missing? ==> r == Ok(DefaultTimeLimitMs)
    ensures f.Present? ==> r == Ok(f.value)
    ensures f.IllTyped? ==> r == Err(f.detail)
  {
    match f
    case Missing => Ok(DefaultTimeLimitMs)
    case Present(ms) => Ok(ms)
    case IllTyped(e) => Err(e)
  }

  /** `event.get('code', '')`, as it is when the handler writes it out. */
  function CodeText(f: Field<string>): (r: Result<string, string>)
    ensures f.Missing? ==> r == Ok("")
    ensures f.Present? ==> r == Ok(f.value)
    ensures f.IllTyped? ==> r == Err(f.detail)
  {
    match f
    case Missing => Ok("")
    case Present(s) => Ok(s)
    case IllTyped(e) => Err(e)
  }
}
