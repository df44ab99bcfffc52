/** Small definitions every other module uses. */
module Prelude {

  datatype Option<+T> = None | Some(value: T)

  function Min(a: nat, b: nat): nat {
    if a <= b then a else b
  }

  function Max(a: nat, b: nat): nat {
    if a <= b then b else a
  }

  /** Saturating subtraction: never below zero. */
  function Monus(a: nat, b: nat): nat {
    if a <= b then 0 else a - b
  }
}
