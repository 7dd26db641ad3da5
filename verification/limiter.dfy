/**
 The lookahead limiter as the implementation writes it: a streaming state
 machine whose state is an envelope and a FIFO of pending samples. The
 interior mutability of the implementation becomes explicit state threading:
 `ProcessSample` maps a node and one input to the next node and one output.
 */
module Limiter {
  import opened Audio

  /**
   `threshold`, `releaseCoeff` and `lookahead` are fixed at construction;
   `envelope` and `buffer` (oldest sample first) evolve with every sample.
   */
  datatype LimiterNode = LimiterNode(
    threshold: real,
    releaseCoeff: real,
    lookahead: nat,
    envelope: real,
    buffer: seq<Sample>)

  /** Largest value of a 64-bit `usize`. */
  const UsizeMax: nat := 0xFFFF_FFFF_FFFF_FFFF

  /**
   The saturating float-to-`usize` cast of `lookaheadSec * sampleRate`:
   truncation toward zero, negative products give 0, huge ones give `UsizeMax`.
   */
  function LookaheadSamples(lookaheadSec: real, sampleRate: real): (n: nat)
    ensures n <= UsizeMax
    ensures lookaheadSec * sampleRate <= 0.0 ==> n == 0
    ensures 0.0 <= lookaheadSec * sampleRate < (UsizeMax + 1) as real ==>
      n as real <= lookaheadSec * sampleRate < n as real + 1.0
    ensures lookaheadSec * sampleRate >= UsizeMax as real ==> n == UsizeMax
  {
    var p := lookaheadSec * sampleRate;
    if p <= 0.0 then 0 else if p.Floor >= UsizeMax then UsizeMax else p.Floor
  }

  /**
   A fresh limiter. The release coefficient exp(-1/(sampleRate * releaseTime))
   is supplied already computed; nothing is validated.
   */
  function New(threshold: real, releaseCoeff: real, lookaheadSec: real, sampleRate: real)
    : (l: LimiterNode)
    ensures l.envelope == 0.0 && l.buffer == []
    ensures l.threshold == threshold && l.releaseCoeff == releaseCoeff
    ensures l.lookahead == LookaheadSamples(lookaheadSec, sampleRate)
  {
    LimiterNode(threshold, releaseCoeff, LookaheadSamples(lookaheadSec, sampleRate), 0.0, [])
  }

  /** The configuration a limiter keeps for its whole life. */
  predicate SameConfig(a: LimiterNode, b: LimiterNode) {
    a.threshold == b.threshold && a.releaseCoeff == b.releaseCoeff && a.lookahead == b.lookahead
  }

  /**
   The number of samples a limiter holds back once its buffer has filled:
   one less than `lookahead`, because a sample is popped as soon as the
   buffer reaches `lookahead` entries.
   */
  function Delay(lookahead: nat): (r: nat)
    ensures lookahead == 0 ==> r == 0
    ensures lookahead > 0 ==> r < lookahead <= r + 1
  {
    if lookahead >= 1 then lookahead - 1 else 0
  }

  /**
   Envelope follower: instant attack takes a level above the envelope; the
   release closes the gap between the envelope and a lower level by the
   factor `releaseCoeff`.
   */
  function Follow(envelope: real, level: real, releaseCoeff: real): (r: real)
    ensures level > envelope ==> r == level
    ensures level <= envelope ==> r - level == releaseCoeff * (envelope - level)
  {
    if level > envelope then level
    else releaseCoeff * envelope + (1.0 - releaseCoeff) * level
  }

  /**
   Gain for an envelope, the threshold being compared directly with the
   linear envelope. When the threshold is negative and the envelope is exactly
   zero the implementation divides by zero; reals have no value for that, and
   the model answers 0.0 there.
   */
  function GainFor(threshold: real, envelope: real): (r: real)
    ensures envelope <= threshold ==> r == 1.0
    ensures envelope > threshold && envelope != 0.0 ==> r * envelope == threshold
  {
    if envelope > threshold then
      if envelope == 0.0 then 0.0 else threshold / envelope
    else 1.0
  }

  /**
   One call of `process_sample`: push the input; while the buffer is shorter
   than `lookahead` emit 0.0, otherwise update the envelope from the newest
   sample and emit the oldest sample, popped, times the gain.
   */
  function ProcessSample(l: LimiterNode, x: Sample): (r: (LimiterNode, Sample))
    ensures SameConfig(r.0, l)
    ensures |r.0.buffer| == if |l.buffer| < Delay(l.lookahead) then |l.buffer| + 1 else |l.buffer|
    ensures |l.buffer| < Delay(l.lookahead) ==>
      r.1 == 0.0 && r.0.buffer == l.buffer + [x] && r.0.envelope == l.envelope
    ensures |l.buffer| >= Delay(l.lookahead) ==>
      && r.0.envelope == Follow(l.envelope, Abs(x), l.releaseCoeff)
      && r.1 == (l.buffer + [x])[0] * GainFor(l.threshold, r.0.envelope)
      && r.0.buffer == (l.buffer + [x])[1..]
  {
    var pushed := l.buffer + [x];
    if |pushed| < l.lookahead then
      (l.(buffer := pushed), 0.0)
    else
      var level := Abs(pushed[|pushed| - 1]);
      var envelope := Follow(l.envelope, level, l.releaseCoeff);
      var gain := GainFor(l.threshold, envelope);
      (l.(envelope := envelope, buffer := pushed[1..]), pushed[0] * gain)
  }

  /** `process`: `ProcessSample` once per input, left to right, threading the state. */
  function Process(l: LimiterNode, xs: seq<Sample>): (r: (LimiterNode, seq<Sample>))
    ensures SameConfig(r.0, l)
    ensures |r.1| == |xs|
    decreases |xs|
  {
    if |xs| == 0 then (l, [])
    else
      var (mid, ys) := Process(l, xs[..|xs| - 1]);
      var (last, y) := ProcessSample(mid, xs[|xs| - 1]);
      (last, ys + [y])
  }

  /** `process_in_place`: the same fold, each output written over its input. */
  method ProcessInPlace(l: LimiterNode, buffer: seq<Sample>)
    returns (l': LimiterNode, out: seq<Sample>)
    ensures |out| == |buffer|
    ensures (l', out) == Process(l, buffer)
  {
    l' := l;
    out := buffer;
    var i := 0;
    while i < |out|
      invariant 0 <= i <= |out| == |buffer|
      invariant out[i..] == buffer[i..]
      invariant (l', out[..i]) == Process(l, buffer[..i])
    {
      assert buffer[..i + 1][..i] == buffer[..i];
      assert out[i] == buffer[i];
      var (next, y) := ProcessSample(l', out[i]);
      var prefix := out[..i];
      l' := next;
      out := out[i := y];
      assert out[..i + 1] == prefix + [y];
      i := i + 1;
    }
    assert out[..i] == out;
    assert buffer[..i] == buffer;
  }

  /** The type tag, the same for every limiter. */
  function NodeType(l: LimiterNode): (r: string)
    ensures r == "limiter"
  {
    "limiter"
  }

  /** The derived `Clone`: configuration, envelope and buffer are all copied. */
  function BoxClone(l: LimiterNode): (r: LimiterNode)
    ensures SameConfig(r, l)
    ensures r.envelope == l.envelope && r.buffer == l.buffer
  {
    l
  }

  lemma MulNonNegative(a: real, b: real)
    requires a >= 0.0 && b >= 0.0
    ensures a * b >= 0.0
  {
  }

  lemma PositiveFactor(a: real, b: real)
    requires b > 0.0 && a * b > 0.0
    ensures a > 0.0
  {
    if a <= 0.0 {
      MulNonNegative(-a, b);
    }
  }

  /**
   The follower never undershoots the newest level, and in the release branch
   it never rises above the previous envelope.
   */
  lemma FollowBounds(envelope: real, level: real, releaseCoeff: real)
    requires 0.0 <= releaseCoeff <= 1.0
    requires level >= 0.0
    ensures Follow(envelope, level, releaseCoeff) >= level >= 0.0
    ensures level > envelope ==> Follow(envelope, level, releaseCoeff) == level
    ensures level <= envelope ==> Follow(envelope, level, releaseCoeff) <= envelope
  {
    if level <= envelope {
      var r := Follow(envelope, level, releaseCoeff);
      assert r - level == releaseCoeff * (envelope - level);
      MulNonNegative(releaseCoeff, envelope - level);
      assert envelope - r == (1.0 - releaseCoeff) * (envelope - level);
      MulNonNegative(1.0 - releaseCoeff, envelope - level);
    }
  }

  /**
   Unity gain when the envelope is at or below the threshold, threshold/envelope
   above it; for a positive threshold the gain lies in (0, 1] and brings a
   non-negative envelope down to at most the threshold.
   */
  lemma GainBounds(threshold: real, envelope: real)
    requires threshold > 0.0
    ensures envelope <= threshold ==> GainFor(threshold, envelope) == 1.0
    ensures envelope > threshold ==> GainFor(threshold, envelope) * envelope == threshold
    ensures 0.0 < GainFor(threshold, envelope) <= 1.0
    ensures envelope >= 0.0 ==> GainFor(threshold, envelope) * envelope <= threshold
  {
    if envelope > threshold {
      var g := threshold / envelope;
      assert g * envelope == threshold;
      var d := envelope - threshold;
      assert d > 0.0;
      assert (1.0 - g) * envelope == d;
      PositiveFactor(1.0 - g, envelope);
    }
  }

  /**
   After a steady-phase step the envelope is non-negative and at least the
   magnitude of the newest sample; in the release branch it does not increase.
   */
  lemma EnvelopeStep(l: LimiterNode, x: Sample)
    requires 0.0 <= l.releaseCoeff <= 1.0
    requires |l.buffer| >= Delay(l.lookahead)
    ensures ProcessSample(l, x).0.envelope >= Abs(x) >= 0.0
    ensures Abs(x) <= l.envelope ==> ProcessSample(l, x).0.envelope <= l.envelope
  {
    FollowBounds(l.envelope, Abs(x), l.releaseCoeff);
  }

  /**
   On a silent input after a peak, with a release coefficient below 1, the
   envelope strictly decreases and stays non-negative.
   */
  lemma SilenceDecays(l: LimiterNode)
    requires 0.0 <= l.releaseCoeff < 1.0
    requires l.envelope > 0.0
    requires |l.buffer| >= Delay(l.lookahead)
    ensures 0.0 <= ProcessSample(l, 0.0).0.envelope < l.envelope
  {
    var e := ProcessSample(l, 0.0).0.envelope;
    assert e == l.releaseCoeff * l.envelope;
    assert (1.0 - l.releaseCoeff) * l.envelope > 0.0;
  }

  /**
   With no lookahead the sample popped is the one just examined, so with a
   positive threshold every output lies within the threshold.
   */
  lemma ZeroLookaheadStep(l: LimiterNode, x: Sample)
    requires l.lookahead <= 1 && l.buffer == []
    requires l.threshold > 0.0 && 0.0 <= l.releaseCoeff <= 1.0
    ensures ProcessSample(l, x).0.buffer == []
    ensures Abs(ProcessSample(l, x).1) <= l.threshold
  {
    var (next, y) := ProcessSample(l, x);
    var e := next.envelope;
    var g := GainFor(l.threshold, e);
    FollowBounds(l.envelope, Abs(x), l.releaseCoeff);
    GainBounds(l.threshold, e);
    assert y == x * g;
    assert Abs(y) == Abs(x) * g;
    MulNonNegative(e - Abs(x), g);
    assert Abs(x) * g <= e * g;
  }
}
