// What every component needs.
module Prelude {

  // Python's None, or a value.
  datatype Option<+T> = None | Some(value: T)

  function Min(a: nat, b: nat): nat { if a <= b then a else b }
}
