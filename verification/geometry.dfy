/** Real-valued helpers shared by the carrom code: JavaScript's Math.min/max/abs
    over reals, the four corner pockets, and the transcendental functions, which
    are passed in as parameters rather than defined. */
module Geometry {

  /** Math.cos, Math.sin, Math.atan2, Math.hypot and Math.PI, supplied by the caller. */
  datatype Trig = Trig(
    cos: real -> real,
    sin: real -> real,
    atan2: (real, real) -> real,
    hypot: (real, real) -> real,
    pi: real)

  /** The one fact about cos and sin the momentum proofs need. */
  ghost predicate UnitCircle(t: Trig) {
    forall a :: t.cos(a) * t.cos(a) + t.sin(a) * t.sin(a) == 1.0
  }

  function Abs(x: real): real {
    if x < 0.0 then -x else x
  }

  function Min(a: real, b: real): real {
    if a <= b then a else b
  }

  function Max(a: real, b: real): real {
    if a >= b then a else b
  }

  /** Centres of the four corner pockets, in the order both the client and the AI list them. */
  const Pockets: seq<(real, real)> := [(50.0, 50.0), (750.0, 50.0), (50.0, 750.0), (750.0, 750.0)]
}
