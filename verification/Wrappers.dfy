module Wrappers {
  datatype Option<+T> = None | Some(value: T)

  function Members<T(==)>(items: seq<T>): set<T> { set x | x in items }
}
