/** The pose head's failures: they surface as exceptions in the source and
    as the `Err` case of a result here. */
module Outcome {

  datatype HeadError =
    | NotImplemented   // an unsupported heatmap normalisation type
    | AssertionFailed  // a tensor of the wrong rank or shape

  datatype Result<T> = Ok(value: T) | Err(error: HeadError)

  /** An optional argument: `None` where the source passes `None`. */
  datatype Option<T> = None | Some(value: T)
}
