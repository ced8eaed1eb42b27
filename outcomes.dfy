/** Values shared by every part of the model: .NET string references that may be
    null, the exception kinds the core throws, and the two failure-carrying
    results that stand for "returned normally" versus "threw". */
module Outcomes {

  /** A .NET `string` reference: either null or a character sequence. */
  datatype NStr = Null | Str(s: string)

  /** A reference of another type that may be null (`None`). */
  datatype Option<+T> = None | Some(value: T)

  /** `string.IsNullOrEmpty`. */
  predicate IsNullOrEmpty(v: NStr) {
    v.Null? || v.s == []
  }

  /** `a ?? b` on string references. */
  function Coalesce(a: NStr, b: string): string {
    if a.Str? then a.s else b
  }

  /** The exceptions that the modelled code throws or lets escape. */
  datatype Error =
    | ArgumentError          // System.ArgumentException: every failed Assert check
    | ArgumentNull           // System.ArgumentNullException from a library call given null
    | ArgumentOutOfRange     // String.Substring called with an impossible range
    | NullReference          // a member access through a null reference
    | InvalidOperation       // the wrapper a fail-fast plugin failure is rethrown in
    | PluginFailure          // whatever a plugin's Execute threw
    | FormatError            // System.FormatException from a parse
    | HttpError(status: int) // System.Web.HttpException carrying a status code
    | SerializationError     // a key missing from a SerializationInfo
    | BadImageFormat         // a file that is not an assembly was loaded as one
    | IOError                // a failed copy of the source tree, or a package file that cannot be created

  /** The effect of a `void` member: it returned, or it threw `error`. */
  datatype Outcome = Pass | Fail(error: Error) {
    predicate IsFailure() { Fail? }
    function PropagateFailure(): Outcome requires Fail? { this }
  }

  /** The effect of a value-returning member: a value, or the exception it threw. */
  datatype Result<+T> = Ok(value: T) | Err(error: Error) {
    predicate IsFailure() { Err? }
    function PropagateFailure<U>(): Result<U> requires Err? { Err(error) }
    function Extract(): T requires Ok? { value }
  }
}
