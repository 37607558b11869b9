/**
  Numeric conventions shared by every component of the model.

  Samples are `real`: single-precision rounding is not modelled. The
  trigonometric functions are uninterpreted and reach the model as function
  parameters; a sine only carries the promise that its value lies in [-1, 1].
 */
module Numeric {

  /** A result that may be missing: `None` marks a call the system cannot
      complete (a panic, or a parameter outside the modelled domain). */
  datatype Option<T> = None | Some(value: T)

  /** The constant `std::f32::consts::PI`, as a real. Its digits only matter
      as an argument of the uninterpreted trigonometric functions. */
  const Pi: real := 3.14159274101257324

  /** A sine: any real function whose values lie in [-1, 1]. */
  type Sine = f: real -> real | forall x: real :: -1.0 <= f(x) <= 1.0 witness (x: real) => 0.0

  /** A float-to-`usize` cast (`x as usize` in Rust) for finite inputs: it
      truncates toward zero and saturates negative values to 0. */
  function ToUsize(x: real): (r: nat)
    ensures x < 0.0 ==> r == 0
    ensures x >= 0.0 ==> r as real <= x < r as real + 1.0
  {
    if x < 0.0 then 0 else x.Floor
  }

  function Abs(x: real): (r: real)
    ensures r >= 0.0 && (r == x || r == -x)
  {
    if x < 0.0 then -x else x
  }

  /** `n` samples of silence. */
  function Zeros(n: nat): (s: seq<real>)
    ensures |s| == n
    ensures forall i :: 0 <= i < n ==> s[i] == 0.0
  {
    seq(n, _ => 0.0)
  }

  predicate AllZero(s: seq<real>)
  {
    forall i :: 0 <= i < |s| ==> s[i] == 0.0
  }

  lemma MulNonneg(a: real, b: real)
    requires a >= 0.0 && b >= 0.0
    ensures a * b >= 0.0
  {
  }
}
