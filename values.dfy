/** Small value helpers shared by the model: an optional value and the
    JavaScript truthiness test applied to a string-or-null. */
module Values {

  /** `null`/`undefined` (None) or a present value. */
  datatype Option<+T> = None | Some(value: T)

  /** JavaScript truthiness of a string that may be null: present and non-empty. */
  predicate Truthy(o: Option<string>)
  {
    o.Some? && o.value != ""
  }
}
