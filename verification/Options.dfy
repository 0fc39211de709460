/** A value or none, for the results that the sources report as a null pointer or a reserved number. */
module Options {

  datatype Option<T> = None | Some(value: T)
}
