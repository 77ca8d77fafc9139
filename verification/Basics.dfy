// What the other modules share.
module Basics {
  datatype Option<+T> = None | Some(value: T)

  function SaturatingSub(a: nat, b: nat): nat {
    if a >= b then a - b else 0
  }
}
