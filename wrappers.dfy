/** Missing values and error returns. A pandas NaN becomes `None`; a Python
    exception that ends a step becomes `Failure`. */
module Wrappers {

  datatype Option<+T> = None | Some(value: T)

  datatype Result<+R, +E> = Success(value: R) | Failure(error: E)
}
