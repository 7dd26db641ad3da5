/**
 Shared vocabulary of the sample-processing core: a sample is a real number
 (the f32 of the implementation, without rounding), a buffer is a sequence of
 samples, and the decibel-to-linear conversion 10^(dB/20) is an uninterpreted
 function supplied by the caller.
 */
module Audio {

  /** One interleaved audio sample. */
  type Sample = real

  /** The conversion from a gain in dB to a linear factor, 10^(dB/20). */
  type DbToLinear = real -> real

  /** The single fact the model assumes about the conversion: 0 dB is unity gain. */
  predicate UnityAtZero(dbToLinear: DbToLinear) {
    dbToLinear(0.0) == 1.0
  }

  function Abs(x: real): (r: real)
    ensures r >= 0.0
    ensures r == x || r == -x
  {
    if x < 0.0 then -x else x
  }

  function Min(a: nat, b: nat): (r: nat)
    ensures r <= a && r <= b
    ensures r == a || r == b
  {
    if a <= b then a else b
  }
}
