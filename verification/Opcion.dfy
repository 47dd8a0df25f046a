/** Optional results: the NULL of the C lookups. */
module Opcion {
  datatype Option<+T> = None | Some(value: T)
}
