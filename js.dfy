/** The JavaScript values the sync core passes between its parts: nullable
    fields, the values an awaited call can throw, and the outcome of such a call. */
module Js {

  /** A field that may be null or undefined. */
  datatype Option<+T> = None | Some(value: T)

  /** What an awaited external call settles to: its value, or what it threw. */
  datatype Result<+T> = Ok(value: T) | Threw(error: Thrown)

  /** One entry of the `errors` array the CRM puts into an error body:
      its `code` and `context.propertyName` (None when the context is
      missing or its `propertyName` is not an array). */
  datatype ErrorEntry = ErrorEntry(code: string, propertyName: Option<seq<string>>)

  /** A thrown or embedded error object: its `message` ("" when absent),
      its `JSON.stringify` text (taken as given, not computed), its HTTP
      `status` and its `errors` array (None when it is not an array). */
  datatype ErrorObject = ErrorObject(
    message: string,
    json: string,
    status: Option<int>,
    errors: Option<seq<ErrorEntry>>)

  /** The `body` property of a thrown error. */
  datatype Body = NoBody | BodyText(text: string) | BodyObject(obj: ErrorObject)

  /** A thrown value: a bare string (with its `JSON.stringify` text), or an
      error object with its `body`. */
  datatype Thrown =
    | ThrownText(text: string, json: string)
    | ThrownObject(body: Body, obj: ErrorObject)

  /** `x || ""` on a nullable string. */
  function OrEmpty(x: Option<string>): (r: string)
    ensures x.Some? ==> r == x.value
    ensures x.None? ==> r == ""
  {
    match x
    case Some(s) => s
    case None => ""
  }

  /** JavaScript truthiness of a nullable string. */
  predicate Truthy(x: Option<string>) {
    x.Some? && x.value != ""
  }

  /** `error.message`, as the catch blocks read it. */
  function MessageOf(e: Thrown): string {
    match e
    case ThrownText(_, _) => ""
    case ThrownObject(_, obj) => obj.message
  }
}
