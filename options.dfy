/** The optional value of a field the source sets to None. */
module Options {

  datatype Option<T> = None | Some(value: T)

}
