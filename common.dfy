/** Values shared by every part of the client: optional values, the answer of
    an external call (a resolved value or a thrown exception), and the
    `error instanceof Error ? error.message : fallback` idiom used in every
    catch block of the frontend. */
module Common {

  datatype Option<+T> = None | Some(value: T)

  /** What a thrown JavaScript value looks like to a catch block: an `Error`
      with its message, or any other value. */
  datatype Exception = Error(message: string) | NonError

  /** The outcome of an awaited external call: it resolved with a value or it
      rejected with an exception. */
  datatype Reply<+T> = Ok(value: T) | Threw(exception: Exception)

  /** A toast: title, description and whether it is shown as destructive. */
  datatype Notice = Notice(title: string, description: string, destructive: bool)

  /** `error instanceof Error ? error.message : fallback` */
  function MessageOr(e: Exception, fallback: string): (m: string)
    ensures e.Error? ==> m == e.message
    ensures e.NonError? ==> m == fallback
  {
    match e
    case Error(msg) => msg
    case NonError => fallback
  }

  /** JavaScript truthiness of an optional string (`null` and `""` are falsy). */
  predicate Truthy(s: Option<string>)
  {
    s.Some? && s.value != ""
  }
}
