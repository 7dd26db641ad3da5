/**
 Properties of the limiter over whole streams: successive calls compose, the
 buffer length settles at the delay, and from a fresh node the limiter is a
 delay line of `Delay(lookahead)` samples multiplied by a gain computed from
 the envelope of the undelayed input.
 */
module LimiterStream {
  import opened Audio
  import opened Limiter

  /** The envelope after following the magnitudes of `s` in order, from `envelope`. */
  function FollowAll(envelope: real, s: seq<Sample>, releaseCoeff: real): real
    decreases |s|
  {
    if |s| == 0 then envelope
    else Follow(FollowAll(envelope, s[..|s| - 1], releaseCoeff), Abs(s[|s| - 1]), releaseCoeff)
  }

  /**
   Reference output number `i` of a limiter started from `l` with an empty
   buffer: 0.0 while the first `Delay` inputs fill the buffer, afterwards the
   input `Delay` places earlier, times the gain for the envelope that has
   followed every input from position `Delay` up to and including `i`.
   */
  function DelayedOutput(l: LimiterNode, xs: seq<Sample>, i: nat): Sample
    requires i < |xs|
  {
    var d := Delay(l.lookahead);
    if i < d then 0.0
    else xs[i - d] * GainFor(l.threshold, FollowAll(l.envelope, xs[d..i + 1], l.releaseCoeff))
  }

  /** Processing `xs` then `ys` in two calls is processing `xs + ys` in one. */
  lemma {:induction false} ProcessAppend(l: LimiterNode, xs: seq<Sample>, ys: seq<Sample>)
    ensures var (mid, out1) := Process(l, xs);
            var (last, out2) := Process(mid, ys);
            Process(l, xs + ys) == (last, out1 + out2)
    decreases |ys|
  {
    if |ys| == 0 {
      assert xs + ys == xs;
      var (mid, out1) := Process(l, xs);
      assert Process(mid, ys) == (mid, []);
      assert out1 + [] == out1;
    } else {
      var front, y := ys[..|ys| - 1], ys[|ys| - 1];
      ProcessAppend(l, xs, front);
      var (mid, out1) := Process(l, xs);
      var (m2, out2) := Process(mid, front);
      var (last, z) := ProcessSample(m2, y);
      assert Process(mid, ys) == (last, out2 + [z]);
      assert (xs + ys)[..|xs + ys| - 1] == xs + front;
      assert (xs + ys)[|xs + ys| - 1] == y;
      assert Process(l, xs + ys) == (last, (out1 + out2) + [z]);
      assert (out1 + out2) + [z] == out1 + (out2 + [z]);
    }
  }

  /** The fold takes the first input first: one `ProcessSample`, then the rest. */
  lemma ProcessFirst(l: LimiterNode, x: Sample, xs: seq<Sample>)
    ensures var (next, y) := ProcessSample(l, x);
            var (last, ys) := Process(next, xs);
            Process(l, [x] + xs) == (last, [y] + ys)
  {
    ProcessAppend(l, [x], xs);
    assert [x][..0] == [];
    var (next, y) := ProcessSample(l, x);
    assert Process(l, [x][..0]) == (l, []);
    assert Process(l, [x]) == (next, [] + [y]);
    assert [] + [y] == [y];
  }

  /**
   From any state whose buffer is no longer than the delay, the buffer grows
   by one per input until it holds `Delay(lookahead)` samples and then stays there.
   */
  lemma {:induction false} BufferLength(l: LimiterNode, xs: seq<Sample>)
    requires |l.buffer| <= Delay(l.lookahead)
    ensures |Process(l, xs).0.buffer| == Min(|l.buffer| + |xs|, Delay(l.lookahead))
    decreases |xs|
  {
    if |xs| > 0 {
      BufferLength(l, xs[..|xs| - 1]);
    }
  }

  /**
   The state a limiter started from `l` with an empty buffer is in after the
   inputs `xs`: it holds the last `Min(|xs|, Delay)` inputs in arrival order,
   and its envelope has followed exactly the inputs past the fill phase.
   */
  ghost predicate DelayLineState(l: LimiterNode, xs: seq<Sample>, st: LimiterNode) {
    var k := Min(|xs|, Delay(l.lookahead));
    && SameConfig(st, l)
    && st.buffer == xs[|xs| - k..]
    && st.envelope == FollowAll(l.envelope, xs[k..], l.releaseCoeff)
  }

  /** Reference outputs depend only on the inputs up to their own position. */
  lemma DelayedOutputPrefix(l: LimiterNode, xs: seq<Sample>, i: nat)
    requires i + 1 < |xs|
    ensures DelayedOutput(l, xs[..|xs| - 1], i) == DelayedOutput(l, xs, i)
  {
    var d := Delay(l.lookahead);
    if i >= d {
      assert xs[..|xs| - 1][d..i + 1] == xs[d..i + 1];
    }
  }

  /** Following one more input extends `FollowAll` by one step. */
  lemma FollowAllLast(envelope: real, xs: seq<Sample>, d: nat, releaseCoeff: real)
    requires d < |xs|
    ensures FollowAll(envelope, xs[d..], releaseCoeff)
         == Follow(FollowAll(envelope, xs[d..|xs| - 1], releaseCoeff), Abs(xs[|xs| - 1]), releaseCoeff)
  {
    assert xs[d..][..|xs[d..]| - 1] == xs[d..|xs| - 1];
  }

  /** A fill-phase input is appended to the buffer and emits 0.0. */
  lemma FillStep(l: LimiterNode, xs: seq<Sample>, mid: LimiterNode)
    requires 0 < |xs| <= Delay(l.lookahead)
    requires DelayLineState(l, xs[..|xs| - 1], mid)
    ensures DelayLineState(l, xs, ProcessSample(mid, xs[|xs| - 1]).0)
    ensures ProcessSample(mid, xs[|xs| - 1]).1 == DelayedOutput(l, xs, |xs| - 1)
  {
    var n := |xs| - 1;
    var p := xs[..n];
    assert mid.buffer == p;
    assert p[n..] == [];
    assert mid.envelope == l.envelope;
    var next := ProcessSample(mid, xs[n]).0;
    assert next.buffer == p + [xs[n]] == xs;
    assert xs[|xs| - Min(|xs|, Delay(l.lookahead))..] == xs;
    assert xs[Min(|xs|, Delay(l.lookahead))..] == [];
  }

  /**
   The buffer a steady-phase step works on: after the push it holds the inputs
   from `Delay` places back up to the newest one.
   */
  lemma SteadyPushed(l: LimiterNode, xs: seq<Sample>, mid: LimiterNode)
    requires |xs| > Delay(l.lookahead)
    requires DelayLineState(l, xs[..|xs| - 1], mid)
    ensures |mid.buffer| == Delay(l.lookahead)
    ensures mid.buffer + [xs[|xs| - 1]] == xs[|xs| - 1 - Delay(l.lookahead)..]
    ensures mid.envelope == FollowAll(l.envelope, xs[Delay(l.lookahead)..|xs| - 1], l.releaseCoeff)
  {
    var n := |xs| - 1;
    var d := Delay(l.lookahead);
    var p := xs[..n];
    assert Min(n, d) == d;
    assert mid.buffer == xs[n - d..n];
    assert p[d..] == xs[d..n];
  }

  /** After a steady-phase input the node is again in `DelayLineState`. */
  lemma SteadyState(l: LimiterNode, xs: seq<Sample>, mid: LimiterNode)
    requires |xs| > Delay(l.lookahead)
    requires DelayLineState(l, xs[..|xs| - 1], mid)
    ensures DelayLineState(l, xs, ProcessSample(mid, xs[|xs| - 1]).0)
  {
    var n := |xs| - 1;
    var d := Delay(l.lookahead);
    SteadyPushed(l, xs, mid);
    assert (mid.buffer + [xs[n]])[1..] == xs[|xs| - d..];
    assert Min(|xs|, d) == d;
    FollowAllLast(l.envelope, xs, d, l.releaseCoeff);
  }

  /** A steady-phase input emits the input `Delay` places earlier times the gain. */
  lemma SteadyOutput(l: LimiterNode, xs: seq<Sample>, mid: LimiterNode)
    requires |xs| > Delay(l.lookahead)
    requires DelayLineState(l, xs[..|xs| - 1], mid)
    ensures ProcessSample(mid, xs[|xs| - 1]).1 == DelayedOutput(l, xs, |xs| - 1)
  {
    var n := |xs| - 1;
    var d := Delay(l.lookahead);
    SteadyPushed(l, xs, mid);
    assert (mid.buffer + [xs[n]])[0] == xs[n - d];
    FollowAllLast(l.envelope, xs, d, l.releaseCoeff);
    assert xs[d..n + 1] == xs[d..];
  }

  /**
   A steady-phase input updates the envelope from itself and emits the input
   `Delay` places earlier, the head of the buffer.
   */
  lemma SteadyStep(l: LimiterNode, xs: seq<Sample>, mid: LimiterNode)
    requires |xs| > Delay(l.lookahead)
    requires DelayLineState(l, xs[..|xs| - 1], mid)
    ensures DelayLineState(l, xs, ProcessSample(mid, xs[|xs| - 1]).0)
    ensures ProcessSample(mid, xs[|xs| - 1]).1 == DelayedOutput(l, xs, |xs| - 1)
  {
    SteadyState(l, xs, mid);
    SteadyOutput(l, xs, mid);
  }

  /**
   A limiter started with an empty buffer is a delay line: after `xs` it is in
   `DelayLineState`, and every output is `DelayedOutput`.
   */
  lemma {:induction false} DelayLine(l: LimiterNode, xs: seq<Sample>)
    requires l.buffer == []
    ensures DelayLineState(l, xs, Process(l, xs).0)
    ensures forall i :: 0 <= i < |xs| ==> Process(l, xs).1[i] == DelayedOutput(l, xs, i)
    decreases |xs|
  {
    if |xs| > 0 {
      var n := |xs| - 1;
      var p := xs[..n];
      DelayLine(l, p);
      var (mid, ys) := Process(l, p);
      var (last, y) := ProcessSample(mid, xs[n]);
      assert Process(l, xs) == (last, ys + [y]);
      if n < Delay(l.lookahead) {
        FillStep(l, xs, mid);
      } else {
        SteadyStep(l, xs, mid);
      }
      ExtendOutputs(l, xs, ys, y);
    }
  }

  /** Outputs matching the reference on a prefix, plus one more matching output. */
  lemma ExtendOutputs(l: LimiterNode, xs: seq<Sample>, ys: seq<Sample>, y: Sample)
    requires |xs| > 0 && |ys| == |xs| - 1
    requires forall i :: 0 <= i < |ys| ==> ys[i] == DelayedOutput(l, xs[..|xs| - 1], i)
    requires y == DelayedOutput(l, xs, |xs| - 1)
    ensures forall i :: 0 <= i < |xs| ==> (ys + [y])[i] == DelayedOutput(l, xs, i)
  {
    forall i | 0 <= i < |xs|
      ensures (ys + [y])[i] == DelayedOutput(l, xs, i)
    {
      if i < |ys| {
        DelayedOutputPrefix(l, xs, i);
      }
    }
  }

  /** Corollary for a node built by `New`: the buffer length after `n` inputs. */
  lemma FreshBufferLength(threshold: real, releaseCoeff: real, lookaheadSec: real, sampleRate: real,
                          xs: seq<Sample>)
    ensures var l := New(threshold, releaseCoeff, lookaheadSec, sampleRate);
            |Process(l, xs).0.buffer| == Min(|xs|, Delay(l.lookahead))
    ensures var l := New(threshold, releaseCoeff, lookaheadSec, sampleRate);
            |Process(l, xs).0.buffer| < l.lookahead || |Process(l, xs).0.buffer| == 0
  {
    var l := New(threshold, releaseCoeff, lookaheadSec, sampleRate);
    BufferLength(l, xs);
  }

  /** With a release coefficient in [0, 1] the envelope never becomes negative. */
  lemma {:induction false} EnvelopeNonNegative(l: LimiterNode, xs: seq<Sample>)
    requires 0.0 <= l.releaseCoeff <= 1.0
    requires l.envelope >= 0.0
    ensures Process(l, xs).0.envelope >= 0.0
    decreases |xs|
  {
    if |xs| > 0 {
      var p := xs[..|xs| - 1];
      EnvelopeNonNegative(l, p);
      var mid := Process(l, p).0;
      if |mid.buffer| >= Delay(mid.lookahead) {
        EnvelopeStep(mid, xs[|xs| - 1]);
      }
    }
  }

  /**
   With `lookahead` 0 or 1, a positive threshold and a release coefficient in
   [0, 1], a limiter with an empty buffer keeps it empty and no output exceeds
   the threshold in magnitude.
   */
  lemma {:induction false} ZeroLookaheadCeiling(l: LimiterNode, xs: seq<Sample>)
    requires l.lookahead <= 1 && l.buffer == []
    requires l.threshold > 0.0 && 0.0 <= l.releaseCoeff <= 1.0
    ensures Process(l, xs).0.buffer == []
    ensures forall i :: 0 <= i < |xs| ==> Abs(Process(l, xs).1[i]) <= l.threshold
    decreases |xs|
  {
    if |xs| > 0 {
      var p := xs[..|xs| - 1];
      ZeroLookaheadCeiling(l, p);
      var mid := Process(l, p).0;
      ZeroLookaheadStep(mid, xs[|xs| - 1]);
    }
  }

  /**
   Threshold 0.5, no lookahead, unit sample rate: three full-scale samples
   are each brought down to 0.5, whatever the release coefficient.
   */
  lemma LoudScenario(releaseCoeff: real)
    ensures Process(New(0.5, releaseCoeff, 0.0, 1.0), [1.0, 1.0, 1.0]).1 == [0.5, 0.5, 0.5]
  {
    var l := New(0.5, releaseCoeff, 0.0, 1.0);
    assert l.lookahead == 0;
    var s1 := ProcessSample(l, 1.0);
    assert s1.0.envelope == 1.0 && s1.1 == 0.5;
    var s2 := ProcessSample(s1.0, 1.0);
    assert s2.0.envelope == 1.0 && s2.1 == 0.5;
    var s3 := ProcessSample(s2.0, 1.0);
    assert s3.1 == 0.5;
    assert [1.0, 1.0, 1.0][..2] == [1.0, 1.0];
    assert [1.0, 1.0][..1] == [1.0];
    assert [1.0][..0] == [];
  }

  /**
   Lookahead of three samples: the first two outputs are 0.0 and the inputs
   come out two places later, unattenuated below the threshold.
   */
  lemma FillScenario(releaseCoeff: real)
    requires 0.0 <= releaseCoeff <= 1.0
    ensures Process(New(1.0, releaseCoeff, 3.0, 1.0), [0.25, 0.5, 0.75, 0.5]).1 == [0.0, 0.0, 0.25, 0.5]
  {
    var l := New(1.0, releaseCoeff, 3.0, 1.0);
    var xs := [0.25, 0.5, 0.75, 0.5];
    assert l.lookahead == 3;
    DelayLine(l, xs);
    var e3 := FollowAll(0.0, xs[2..3], releaseCoeff);
    assert xs[2..3] == [0.75];
    assert [0.75][..0] == [];
    assert e3 == Follow(0.0, Abs(0.75), releaseCoeff) == 0.75;
    var e4 := FollowAll(0.0, xs[2..4], releaseCoeff);
    assert xs[2..4][..1] == xs[2..3];
    FollowBounds(0.75, 0.5, releaseCoeff);
    assert e4 <= 0.75;
    assert DelayedOutput(l, xs, 2) == 0.25;
    assert DelayedOutput(l, xs, 3) == 0.5;
  }

  /**
   The threshold ceiling does not extend to longer lookaheads. With a
   lookahead of 3, a full-scale peak that arrives during the fill phase is
   never followed by the envelope and is emitted unattenuated, above a 0.5
   threshold.
   */
  lemma FillPeakPassesThrough(releaseCoeff: real)
    ensures Process(New(0.5, releaseCoeff, 3.0, 1.0), [1.0, 0.0, 0.0]).1[2] == 1.0
  {
    var l := New(0.5, releaseCoeff, 3.0, 1.0);
    var xs := [1.0, 0.0, 0.0];
    assert l.lookahead == 3;
    DelayLine(l, xs);
    assert xs[2..3] == [0.0];
    assert [0.0][..0] == [];
    assert FollowAll(0.0, xs[2..3], releaseCoeff) == Follow(0.0, Abs(0.0), releaseCoeff) == 0.0;
    assert DelayedOutput(l, xs, 2) == 1.0;
  }

  /**
   With a lookahead of 2 and an instant release, the envelope has already
   fallen back when the delayed peak is emitted, so the peak leaves the
   limiter unattenuated, above a 0.5 threshold.
   */
  lemma ReleasedPeakPassesThrough()
    ensures Process(New(0.5, 0.0, 2.0, 1.0), [0.0, 1.0, 0.0]).1[2] == 1.0
  {
    var l := New(0.5, 0.0, 2.0, 1.0);
    var xs := [0.0, 1.0, 0.0];
    assert l.lookahead == 2;
    DelayLine(l, xs);
    assert xs[1..3] == [1.0, 0.0];
    assert [1.0, 0.0][..1] == [1.0];
    assert [1.0][..0] == [];
    assert FollowAll(0.0, [1.0], 0.0) == 1.0;
    assert FollowAll(0.0, xs[1..3], 0.0) == Follow(1.0, Abs(0.0), 0.0) == 0.0;
    assert DelayedOutput(l, xs, 2) == 1.0;
  }
}
