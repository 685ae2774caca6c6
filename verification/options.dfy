/** A nullable value: JavaScript's `null` is None. */
module Options {

  datatype Option<+T> = None | Some(value: T)

  /** JavaScript truthiness of a nullable string: both `null` and the empty string are falsy. */
  predicate Truthy(o: Option<string>) {
    o.Some? && o.value != ""
  }
}
