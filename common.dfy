/** Small value types shared by every module of the model. */
module Common {

  /** An optional value. */
  datatype Option<+T> = None | Some(value: T)

  /** The outcome of one call into the page-rendering library or the network:
      it either returned a value or threw an error whose message is kept. */
  datatype Attempt<+T> = Got(value: T) | Threw(message: string)

  /** What a JavaScript `catch` clause receives: an `Error` object (with a
      message) or some other thrown value. */
  datatype Thrown = ErrorObject(message: string) | OtherValue

  /** `error instanceof Error ? error.message : 'Unknown error'` */
  function Describe(t: Thrown): (r: string)
    ensures t.ErrorObject? ==> r == t.message
    ensures t.OtherValue? ==> r == "Unknown error"
  {
    match t
    case ErrorObject(m) => m
    case OtherValue => "Unknown error"
  }
}
