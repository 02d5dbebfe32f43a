/** Error kinds returned by the store and the code generator, and a Result
    wrapper standing for Go's `(value, error)` return pairs. */
module Errors {

  /** The error values the core can produce. */
  datatype Error =
    | NotFound          // storage.ErrNotFound: a lookup of a code with no mapping
    | StorageFailure    // any failure of the underlying bbolt transaction
    | EntropyFailure    // crypto/rand could not produce a number

  datatype Result<+T> = Ok(value: T) | Err(error: Error)
}
