/**
 The audio-node capability as a closed set of variants. Every node maps a
 buffer to a buffer of the same length; a stateful node (the limiter) also
 yields its next state, so `Process` returns the node together with the output.
 */
module Node {
  import opened Audio
  import Gain
  import Limiter
  import LimiterStream

  datatype AudioNode =
    | GainNode(gain: Gain.GainNode)
    | LimiterNode(limiter: Limiter.LimiterNode)

  /** `process`: the output buffer and the node's state after the call. */
  function Process(n: AudioNode, xs: seq<Sample>, dbToLinear: DbToLinear): (r: (AudioNode, seq<Sample>))
    ensures |r.1| == |xs|
    ensures NodeType(r.0) == NodeType(n)
    ensures n.GainNode? ==> r.0 == n
    ensures n.LimiterNode? ==> r.0.LimiterNode? && Limiter.SameConfig(r.0.limiter, n.limiter)
  {
    match n
    case GainNode(g) => (n, Gain.Process(g, xs, dbToLinear))
    case LimiterNode(l) =>
      var (next, ys) := Limiter.Process(l, xs);
      (LimiterNode(next), ys)
  }

  /** `process_in_place`: dispatches to the variant's in-place loop; agrees with `Process`. */
  method ProcessInPlace(n: AudioNode, buffer: seq<Sample>, dbToLinear: DbToLinear)
    returns (n': AudioNode, out: seq<Sample>)
    ensures |out| == |buffer|
    ensures (n', out) == Process(n, buffer, dbToLinear)
  {
    match n
    case GainNode(g) =>
      n' := n;
      out := Gain.ProcessInPlace(g, buffer, dbToLinear);
    case LimiterNode(l) =>
      var next;
      next, out := Limiter.ProcessInPlace(l, buffer);
      n' := LimiterNode(next);
  }

  /** The variant's type tag. */
  function NodeType(n: AudioNode): (r: string)
    ensures n.GainNode? ==> r == "gain"
    ensures n.LimiterNode? ==> r == "limiter"
  {
    match n
    case GainNode(g) => Gain.NodeType(g)
    case LimiterNode(l) => Limiter.NodeType(l)
  }

  /** A deep copy: same variant, same configuration, same current state. */
  function BoxClone(n: AudioNode): (r: AudioNode)
    ensures NodeType(r) == NodeType(n)
    ensures n.GainNode? ==> r.GainNode? && Gain.Db(r.gain) == Gain.Db(n.gain)
    ensures n.LimiterNode? ==> && r.LimiterNode?
                               && Limiter.SameConfig(r.limiter, n.limiter)
                               && r.limiter.envelope == n.limiter.envelope
                               && r.limiter.buffer == n.limiter.buffer
  {
    match n
    case GainNode(g) => GainNode(Gain.BoxClone(g))
    case LimiterNode(l) => LimiterNode(Limiter.BoxClone(l))
  }

  /** The type tag is constant per variant and tells the variants apart. */
  lemma NodeTypeTags(n: AudioNode)
    ensures NodeType(n) == "gain" <==> n.GainNode?
    ensures NodeType(n) == "limiter" <==> n.LimiterNode?
  {
  }

  /**
   A clone is a deep copy of configuration and current state: it has the same
   type tag and gives the same output and next state as the original.
   */
  lemma BoxCloneAgrees(n: AudioNode, xs: seq<Sample>, dbToLinear: DbToLinear)
    ensures NodeType(BoxClone(n)) == NodeType(n)
    ensures Process(BoxClone(n), xs, dbToLinear) == Process(n, xs, dbToLinear)
  {
  }

  /**
   A clone taken mid-stream is not reset: fed the rest of the stream, it emits
   exactly what the original would have emitted had it been fed the whole
   stream in one call.
   */
  lemma CloneContinuesStream(n: AudioNode, xs: seq<Sample>, ys: seq<Sample>, dbToLinear: DbToLinear)
    ensures var (mid, out1) := Process(n, xs, dbToLinear);
            var (last, out2) := Process(BoxClone(mid), ys, dbToLinear);
            Process(n, xs + ys, dbToLinear) == (last, out1 + out2)
  {
    match n
    case GainNode(g) =>
      var out := Gain.Process(g, xs + ys, dbToLinear);
      var out1 := Gain.Process(g, xs, dbToLinear);
      var out2 := Gain.Process(g, ys, dbToLinear);
      assert forall i :: 0 <= i < |xs + ys| ==> out[i] == (out1 + out2)[i];
      assert out == out1 + out2;
    case LimiterNode(l) =>
      LimiterStream.ProcessAppend(l, xs, ys);
  }
}
