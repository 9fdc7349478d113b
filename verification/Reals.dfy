/** Real numbers: size, order and what lies between. */
module Reals {
  function Abs(x: real): real {
    if x < 0.0 then -x else x
  }

  function Min(x: real, y: real): real {
    if x <= y then x else y
  }

  function Max(x: real, y: real): real {
    if x <= y then y else x
  }

  /** `y` lies between the other two, whichever is larger. */
  predicate Between(x: real, y: real, z: real) {
    x <= y <= z || z <= y <= x
  }
}
