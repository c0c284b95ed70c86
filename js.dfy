/** Values as the JavaScript code sees them: a field of a parsed JSON body or
    of a query string is either absent (`undefined`) or present. */
module Js {

  datatype Option<+T> = None | Some(value: T)

  /** JavaScript truthiness of an optional string: `undefined` and `''` are
      falsy, every other string is truthy. This is the `!field` test the
      handlers use to reject a missing required field. */
  predicate Present(o: Option<string>) {
    o.Some? && o.value != ""
  }
}
