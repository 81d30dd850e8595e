/** The absent-or-present values of the source: `undefined`, `null` and missing keys. */
module Options {

  datatype Option<+T> = None | Some(value: T) {

    /** The `??` operator: this value, or the fallback when absent. */
    function GetOr(fallback: T): T {
      if Some? then value else fallback
    }

    /** The `??` operator with an optional right operand. */
    function Or(other: Option<T>): Option<T> {
      if Some? then this else other
    }
  }
}
