/** Failure-compatible wrappers used throughout the model: `Option` for Rust's
    `Option<T>` and `Result` for Rust's `Result<T, E>`, both usable with `:-`. */
module Results {

  datatype Option<+T> = None | Some(value: T) {
    function GetOr(default: T): T {
      match this
      case Some(v) => v
      case None => default
    }
  }

  datatype Result<+T, +E> = Success(value: T) | Failure(error: E) {
    predicate IsFailure() {
      Failure?
    }

    function PropagateFailure<U>(): Result<U, E>
      requires Failure?
    {
      Failure(error)
    }

    function Extract(): T
      requires Success?
    {
      value
    }
  }
}

/** The error type of the vault (`SecureStringError`). Only the variants the
    vault itself produces or classifies are distinguished. */
module Errors {

  datatype VaultError =
    | NoLocalStorageData              // nothing stored at the addressed slot
    | DecryptError                    // the stored blob does not open under the slot's key
    | PasswordNotFound(message: string)
    | SerdeError                      // JSON text of the wrong shape
    | StorageError(message: string)   // the byte store refused a read or write
    | CryptoError(message: string)    // key derivation or random generation failed
}
