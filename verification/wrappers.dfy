/** Failure-carrying wrappers shared by every module of the model. */
module Wrappers {

  /** A value that may be absent: a null host handle, a missing map entry, a failed search. */
  datatype Option<+T> = None | Some(value: T)

  /** The outcome of an operation that can raise: `Failure` names the exception the source raises. */
  datatype Result<+T> = Success(value: T) | Failure(error: string)

  /** Which of the two parallel sample implementations (C++ or Python) a member follows. */
  datatype Lang = Cpp | Python
}
