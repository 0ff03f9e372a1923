/** The source's "value or nothing" returns (a row or `None`, a name or `False`). */
module Wrappers {

  datatype Option<+T> = None | Some(value: T)

  /** Python truthiness of an optional string: `None`, `False` and `""` are all falsy. */
  predicate TruthyString(o: Option<string>)
  {
    o.Some? && o.value != ""
  }

  /** Python truthiness of an optional chat id: `None` and `0` are falsy. */
  predicate TruthyId(o: Option<int>)
  {
    o.Some? && o.value != 0
  }
}
