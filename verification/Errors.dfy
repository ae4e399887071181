/** Option, Result and the crate's error types (src/errors.rs). */
module Errors {

  datatype Option<+T> = None | Some(value: T) {
    function GetOr(default: T): T {
      match this
      case Some(v) => v
      case None => default
    }
  }

  /** Errors of the OPRF library that the crate can surface. */
  datatype VoprfError = Input | Deserialization | DeriveKeyPair

  datatype InternalError =
    | HkdfError
    | HmacError
    | KsfError
    | SealOpenHmacError
    | IncompatibleEnvelopeModeError
    | OprfError(error: VoprfError)

  /** `Panic` stands for a call to `unwrap()` on a failed result. */
  datatype ProtocolError =
    | LibraryError(internal: InternalError)
    | InvalidLoginError
    | SerializationError
    | SizeError(name: string, len: nat, actualLen: nat)
    | ReflectedValueError
    | Panic

  datatype Result<+R> = Ok(value: R) | Err(error: ProtocolError) {
    predicate IsFailure() {
      Err?
    }

    function PropagateFailure<U>(): Result<U>
      requires Err?
    {
      Err(error)
    }

    function Extract(): R
      requires Ok?
    {
      value
    }
  }

  /** `ok_or`: an absent value becomes the given error. */
  function OkOr<T>(o: Option<T>, error: ProtocolError): Result<T> {
    match o
    case Some(v) => Ok(v)
    case None => Err(error)
  }

  /** `Ok(())` when the condition holds. */
  function Need(condition: bool, error: ProtocolError): Result<()> {
    if condition then Ok(()) else Err(error)
  }
}
