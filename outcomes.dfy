/** Failures raised by the Grid class, as values. */
module Outcomes {

  /** The exceptions the Grid class can raise (their message text is not modelled). */
  datatype GridError =
    | DimensionError    // the constructor's guard: `raise Exception(...)`
    | IndexError        // `toggle_cell` on a coordinate outside the grid
    | MissingAttribute  // an AttributeError: a read of an attribute the object does not have

  /** The outcome of an operation that returns nothing but may raise. */
  datatype Outcome = Pass | Fail(error: GridError)

  /** The outcome of an operation that returns a value or raises. */
  datatype Result<T> = Ok(value: T) | Err(error: GridError)
}
