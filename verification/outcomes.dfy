/** Failure-carrying values shared by the manifest builder.

    The converter has two ways to stop early: a row without an `image_path`
    column (a lookup that raises in the source) and a negative sample size
    (which the table library refuses). Both become a `Failure` here instead
    of an exception. */
module Outcomes {

  /** An optional value, used for the nullable `sample_n` option. */
  datatype Option<+T> = None | Some(value: T)

  /** Why a conversion stopped. */
  datatype Error =
    | MissingColumn(column: string)
    | NegativeSampleSize(requested: int)

  /** Either a value or the error that stopped the computation. Failure
      compatible, so `:-` propagates the first error. */
  datatype Result<+T> = Success(value: T) | Failure(error: Error) {

    predicate IsFailure() {
      Failure?
    }

    /** The same error at another value type. */
    function PropagateFailure<U>(): Result<U>
      requires Failure?
    {
      Failure(error)
    }

    function Extract(): T
      requires Success?
    {
      value
    }
  }
}
