/** What several of the models share. */
module Wrappers {

  datatype Option<T> = None | Some(value: T)
}

// Integer division as C++ has it.
module TruncatedDivision {

  // For a positive divisor: quotient and remainder round toward zero.
  function TruncDiv(a: int, b: int): int
    requires b > 0
  {
    if a >= 0 then a / b else -((-a) / b)
  }

  function TruncMod(a: int, b: int): int
    requires b > 0
  {
    a - b * TruncDiv(a, b)
  }
}
