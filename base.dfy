/** Failure-compatible wrappers shared by every module of the model. */
module Base {

  /** Ruby's `nil` or a present value. */
  datatype Option<+T> = None | Some(value: T)

  /** The exceptions the modelled code can let escape to its caller. */
  datatype Exception =
    | GeneratorError          // FractionalIndexer::Error raised outside a `rescue`
    | ArgumentError           // `minmax` comparing a String with nil
    | RecordNotFound(id: Option<int>)  // ActiveRecord `find` with no in-scope match
    | NoMethodError           // indexing `nil`, or a payload of an unexpected shape

  /** A Ruby call that either returns a value or raises. */
  datatype Outcome<+T> = Ok(value: T) | Raise(error: Exception)
}
