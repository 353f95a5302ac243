/** The outcome of one `fetch` + `response.json()` round, seen from the
    `try` block that awaits it. Network I/O itself is not modelled: what
    the network did is the input. */
module Fetch {
  import opened Text

  /** A value a JavaScript `throw` carries: an `Error` object with its
      `message`, or something else. */
  datatype Thrown = ErrorObject(message: string) | OtherValue

  /** What `response.json()` produced. */
  datatype Body<T> = Json(value: T) | Malformed(error: Thrown)

  /** What `fetch(url)` produced. */
  datatype Fetched<T> = Responded(status: nat, body: Body<T>) | Failed(error: Thrown)

  /** How the awaiting `try` block ends. */
  datatype Completion<T> = Normal(value: T) | Threw(error: Thrown)

  /** `response.ok` */
  predicate Ok(status: nat)
  {
    200 <= status <= 299
  }

  const HttpErrorPrefix := "HTTP error! status: "

  /** `new Error(`HTTP error! status: ${response.status}`)` */
  function HttpError(status: nat): Thrown
  {
    ErrorObject(HttpErrorPrefix + NatToString(status))
  }

  /** The V8 `TypeError` for reading a property of `null`. */
  function NullRead(property: string): Thrown
  {
    ErrorObject("Cannot read properties of null (reading '" + property + "')")
  }

  /** The `try` block up to `await response.json()`: a non-OK status
      throws before the body is read. */
  function Await<T>(f: Fetched<T>): (c: Completion<T>)
    ensures f.Failed? ==> c == Threw(f.error)
    ensures f.Responded? && !Ok(f.status) ==> c == Threw(HttpError(f.status))
    ensures f.Responded? && Ok(f.status) && f.body.Json? ==> c == Normal(f.body.value)
    ensures f.Responded? && Ok(f.status) && f.body.Malformed? ==> c == Threw(f.body.error)
  {
    match f
    case Failed(e) => Threw(e)
    case Responded(status, body) =>
      if !Ok(status) then Threw(HttpError(status))
      else match body
        case Json(v) => Normal(v)
        case Malformed(e) => Threw(e)
  }

  /** `${err.message}` in the vanilla viewers: a thrown non-`Error` value
      has no `message`, which interpolates as `undefined`. */
  function MessageText(t: Thrown): (r: string)
    ensures t.OtherValue? ==> r == "undefined"
    ensures r == ReactMessageText(t) <==> t.ErrorObject?
  {
    match t
    case ErrorObject(m) => m
    case OtherValue => "undefined"
  }

  /** `err instanceof Error ? err.message : "Unknown error"` in the React pages. */
  function ReactMessageText(t: Thrown): string
  {
    match t
    case ErrorObject(m) => m
    case OtherValue => "Unknown error"
  }

  /** The status code can be read back from the HTTP error message. */
  lemma HttpErrorNamesStatus(status: nat)
    ensures var m := HttpError(status).message;
      && StartsWith(m, HttpErrorPrefix)
      && AllRadixDigits(m[|HttpErrorPrefix|..], 10)
      && RadixValue(m[|HttpErrorPrefix|..], 10) == status
  {
    var m := HttpError(status).message;
    assert m[|HttpErrorPrefix|..] == NatToString(status);
    NatToStringValue(status);
  }
}
