/** The error taxonomy shared by the copy and listing engine. */
module Errors {

  /** The kinds of storage error the engine inspects (opendal's `ErrorKind`). */
  datatype ErrorKind =
    | Unexpected
    | Unsupported
    | ConfigInvalid
    | NotFound
    | PermissionDenied
    | IsADirectory
    | NotADirectory
    | AlreadyExists
    | RateLimited
    | IsSameFile
    | ConditionNotMatch
    | RangeNotSatisfied

  /** The kinds of error a byte stream reports (Rust's `std::io::ErrorKind`). */
  datatype IoErrorKind =
    | IoNotFound
    | IoPermissionDenied
    | IoAlreadyExists
    | IoIsADirectory
    | IoNotADirectory
    | IoConnectionRefused
    | IoConnectionReset
    | IoBrokenPipe
    | IoTimedOut
    | IoInterrupted
    | IoUnexpectedEof
    | IoInvalidData
    | IoOther
  {
    /** The five io kinds that have a same-named storage kind. */
    predicate HasStorageCounterpart() {
      || IoNotFound? || IoPermissionDenied? || IoAlreadyExists?
      || IoIsADirectory? || IoNotADirectory?
    }
  }

  /** The result of a fallible operation: a value, or the kind of the error. */
  datatype Result<+T> = Ok(value: T) | Err(kind: ErrorKind)

  type Outcome = Result<()>

  /** Conversion of a stream error into a storage error (the `into_` extension). */
  function IntoError(io: IoErrorKind): (k: ErrorKind)
    ensures io == IoNotFound ==> k == NotFound
    ensures io == IoPermissionDenied ==> k == PermissionDenied
    ensures io == IoAlreadyExists ==> k == AlreadyExists
    ensures io == IoIsADirectory ==> k == IsADirectory
    ensures io == IoNotADirectory ==> k == NotADirectory
    ensures k == Unexpected <==> !io.HasStorageCounterpart()
    ensures k in {NotFound, PermissionDenied, AlreadyExists, IsADirectory, NotADirectory, Unexpected}
  {
    match io
    case IoNotFound => NotFound
    case IoPermissionDenied => PermissionDenied
    case IoAlreadyExists => AlreadyExists
    case IoIsADirectory => IsADirectory
    case IoNotADirectory => NotADirectory
    case _ => Unexpected
  }

  /** Distinct io kinds with a storage counterpart never collapse into one storage kind. */
  lemma IntoErrorInjectiveOnCounterparts(a: IoErrorKind, b: IoErrorKind)
    requires a.HasStorageCounterpart() && b.HasStorageCounterpart()
    ensures IntoError(a) == IntoError(b) <==> a == b
  {
  }
}
