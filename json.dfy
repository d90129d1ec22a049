/** The values a parsed request body or query holds, as far as the validators look. */
module Json {
  import opened Wrappers
  import opened Tables

  /** A JSON value; `Undefined` stands for a missing key. Objects and arrays are not
      looked into by any field rule, so they are one case. */
  datatype Js =
    | Undefined
    | Null
    | JsBool(b: bool)
    | JsNumber(n: real)
    | JsString(s: string)
    | JsStructured

  /** The format checks the validation library performs itself: its UUID pattern (the
      textual form of section 3 of RFC 4122), its email pattern, and date coercion
      (`new Date(value)`, None for an invalid date). They are taken as given. */
  datatype Formats = Formats(isUuid: string -> bool, isEmail: string -> bool, toDate: Js -> Option<Time>)
}
