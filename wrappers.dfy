/** Optional values: a JSON field that may be absent, a query that may find nothing. */
module Wrappers {

  datatype Option<T> = None | Some(value: T)
}
