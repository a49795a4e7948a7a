/** Optional values. `None` stands for JavaScript's `undefined`, which the
    synchronisation code reads whenever it asks a `Map` for a missing key. */
module Wrappers {

  datatype Option<+T> = None | Some(value: T)
}
