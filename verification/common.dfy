/** Small shared vocabulary: optional values, random draws and real helpers. */
module Common {

  /** A value that may be absent, as JavaScript's `null`/`undefined`. */
  datatype Option<+T> = None | Some(value: T)

  /** A draw of `Math.random()`: a real in [0, 1). */
  predicate Unit(r: real) {
    0.0 <= r < 1.0
  }

  function Abs(x: real): real {
    if x < 0.0 then -x else x
  }

  function Min(a: real, b: real): real {
    if a <= b then a else b
  }

  function Max(a: real, b: real): real {
    if a >= b then a else b
  }

  function MaxNat(a: nat, b: nat): nat {
    if a >= b then a else b
  }
}
