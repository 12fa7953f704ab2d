/** Failure-carrying wrappers shared by the message store and the query client.
    - Option<T> stands for Python's "value or None".
    - Result<T, E> stands for "a value, or the exception that aborted the call".
 */
module Wrappers {

  datatype Option<+T> = None | Some(value: T)

  datatype Result<+T, +E> = Success(value: T) | Failure(error: E)
}
