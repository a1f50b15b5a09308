/** An optional value: the model's stand-in for a Swift optional such as
    the clip view's `documentView`. */
module Optional {
  datatype Option<T> = None | Some(value: T)
}
