/** Option and Result values used across the model, and the kinds of failure the
    backend raises. Every failure below is an IllegalArgumentException in the
    original code unless its comment says otherwise. */
module Wrappers {

  /** A value that may be absent: Java `null`, a missing map entry, JavaScript
      `undefined`, or a numeric conversion that gave NaN. */
  datatype Option<+T> = None | Some(value: T)

  /** The reason an operation was rejected. */
  datatype Failure =
    | Missing            // a required argument was null
    | UnknownName        // a name outside the accepted set
    | EmptyInput         // an empty matrix, vector or resistor list
    | DimensionMismatch  // |A| differs from |b|
    | NotSquare          // a row of A whose length differs from |A| (or a null row)
    | Singular           // a pivot or a determinant below the tolerance
    | NonPositive        // a resistance that is not strictly positive
    | NullPointer        // Objects.requireNonNull (NullPointerException)
    | LibraryError       // the reference LU solver rejected the system
    | IndexOutOfBounds   // an array index past the end (ArrayIndexOutOfBoundsException)
    | JobFailed(cause: Failure)  // a scheduler wrapping a job's failure (IllegalStateException)

  datatype Result<+T> = Ok(value: T) | Err(error: Failure)
}
