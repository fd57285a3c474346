/** What every part of the model shares: optional values and real arithmetic. */
module Prelude {

  /** None where a value of the program is invalid or not finite. */
  datatype Option<T> = None | Some(value: T)

  /** The identity of the pose that temporal evidence was measured under; None when it is not valid. */
  type Authority = Option<nat>

  /** An invalid authority is not even the same as itself. */
  predicate SameAuthority(a: Authority, b: Authority) { a.Some? && a == b }

  function Abs(x: real): real { if x < 0.0 then -x else x }
  function Max(x: real, y: real): real { if x < y then y else x }
  function Min(x: real, y: real): real { if y < x then y else x }
}
