/** The conventional optional value, used for the source's null pointers and uninitialised CPUs. */
module Options {
  datatype Option<+T> = None | Some(value: T)
}
