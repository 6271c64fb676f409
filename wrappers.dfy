/** The optional-value type used across the model for Python calls that may
    fail (a conversion that raises, a lookup that misses, an index out of range). */
module Wrappers {

  datatype Option<+T> = None | Some(value: T)

}
