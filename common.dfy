/** Option and Result, and the exceptions the builder raises. */
module Common {

  /** An optional value. `None` stands for the source's "unset" markers
      (`...` in que/structure.py, the `Unset` sentinel in que/query.py) and
      for Python's `None` in optional parameters. */
  datatype Option<+T> = None | Some(value: T)

  /** The exceptions the builder can raise. */
  datatype Error =
    | SQLSyntaxError   // a Field with neither side, an Expression without a column
    | SQLValueError    // data_to_fields given a shape it does not accept
    | TypeError        // str.join or isinstance applied to something that is not a str / not a type

  /** A computation that either returns a value or raises one of the errors above. */
  datatype Result<+T> = Ok(value: T) | Err(error: Error)
}
