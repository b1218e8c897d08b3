/** The optional values the components read from the browser: a missing localStorage
    entry, an absent property, a storage event without a key. */
module Options {

  datatype Option<+T> = None | Some(value: T)

  /** JavaScript truthiness of a possibly missing string: `null`, `undefined` and `""` are
      falsy, every other string is truthy. */
  predicate Truthy(s: Option<string>)
  {
    s.Some? && s.value != ""
  }
}
