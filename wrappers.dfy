/** Optional values: a C `NULL` pointer, a Java `null` reference, or a
    parse that stops without a result. */
module Wrappers {

  datatype Option<T> = None | Some(value: T)
}
