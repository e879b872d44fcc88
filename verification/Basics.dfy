/** Small things that several models share. */
module Basics {
  import opened Wrappers

  /** A configured number that must be positive is floored; anything else means the default. */
  function PositiveFloor(value: Option<real>, default: nat): (n: nat)
    ensures value.Some? && value.value > 0.0 ==> n as real <= value.value < n as real + 1.0
    ensures value.None? || value.value <= 0.0 ==> n == default
  {
    if value.Some? && value.value > 0.0 then value.value.Floor else default
  }

  lemma Regroup<T>(a: seq<T>, b: seq<T>, c: seq<T>)
    ensures a + (b + c) == a + b + c
  {
  }
}
