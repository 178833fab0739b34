/** Failure-carrying values shared by every module: the Python exceptions the core raises
    become an `Err` holding an `Error`, and a value that may be `None` becomes an `Option`. */
module Common {

  datatype Option<+T> = None | Some(value: T) {
    function GetOr(default: T): T {
      match this
      case Some(v) => v
      case None => default
    }
  }

  /** The exceptions raised by the core, by Python class. `UpstreamError` stands for any failure
      of a collaborator that is not modelled (the language-model client, the PDF parser). */
  datatype Error =
    | ValueError(message: string)
    | FileNotFoundError(message: string)
    | ValidationError(message: string)
    | UploadRejected(extension: string)
    | UpstreamError(reason: string)

  datatype Result<+T> = Ok(value: T) | Err(error: Error) {
    predicate IsFailure() { Err? }

    function PropagateFailure<U>(): Result<U>
      requires Err?
    {
      Err(error)
    }

    function Extract(): T
      requires Ok?
    {
      value
    }
  }

  /** Python truthiness of an optional string: `None` and `""` are both false. */
  predicate Truthy(s: Option<string>) {
    s.Some? && s.value != ""
  }
}
