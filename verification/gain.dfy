/**
 The gain node: a stateless, pointwise multiplication of every sample by the
 linear factor that corresponds to a gain in decibels.
 */
module Gain {
  import opened Audio

  /** Configuration of a gain node: the gain in dB. There is no other state. */
  datatype GainNode = GainNode(db: real)

  function New(db: real): (g: GainNode)
    ensures Db(g) == db
  {
    GainNode(db)
  }

  /** Reads the gain, which is all there is to a gain node. */
  function Db(g: GainNode): (r: real)
    ensures g == GainNode(r)
  {
    g.db
  }

  /** Replaces the gain; a gain node has no other field to keep. */
  function SetDb(g: GainNode, db: real): (r: GainNode)
    ensures Db(r) == db
  {
    g.(db := db)
  }

  /** Multiplies every sample of `xs` by `k`, in order. */
  function Scale(xs: seq<Sample>, k: real): (r: seq<Sample>)
    ensures |r| == |xs|
    ensures forall i :: 0 <= i < |xs| ==> r[i] == xs[i] * k
  {
    if |xs| == 0 then [] else [xs[0] * k] + Scale(xs[1..], k)
  }

  /** The copying variant: a new buffer holding every input sample scaled by 10^(db/20). */
  function Process(g: GainNode, xs: seq<Sample>, dbToLinear: DbToLinear): (r: seq<Sample>)
    ensures |r| == |xs|
    ensures forall i :: 0 <= i < |xs| ==> r[i] == xs[i] * dbToLinear(Db(g))
  {
    Scale(xs, dbToLinear(Db(g)))
  }

  /** The in-place variant: overwrites the caller's buffer slot by slot. */
  method ProcessInPlace(g: GainNode, buffer: seq<Sample>, dbToLinear: DbToLinear)
    returns (out: seq<Sample>)
    ensures |out| == |buffer|
    ensures out == Process(g, buffer, dbToLinear)
  {
    var linearGain := dbToLinear(Db(g));
    out := buffer;
    var i := 0;
    while i < |out|
      invariant 0 <= i <= |out| == |buffer|
      invariant forall j :: 0 <= j < i ==> out[j] == buffer[j] * linearGain
      invariant forall j :: i <= j < |out| ==> out[j] == buffer[j]
    {
      out := out[i := out[i] * linearGain];
      i := i + 1;
    }
    var expected := Process(g, buffer, dbToLinear);
    assert forall j :: 0 <= j < |out| ==> out[j] == expected[j];
  }

  /** The type tag, the same for every gain node. */
  function NodeType(g: GainNode): (r: string)
    ensures r == "gain"
  {
    "gain"
  }

  /** The derived `Clone`: the copy has the same gain, the node's only field. */
  function BoxClone(g: GainNode): (r: GainNode)
    ensures Db(r) == Db(g)
  {
    g
  }

  /** Convenience wrapper: scales `samples` by `db` through a temporary node. */
  function GainDb(samples: seq<Sample>, db: real, dbToLinear: DbToLinear): (r: seq<Sample>)
    ensures |r| == |samples|
    ensures forall i :: 0 <= i < |samples| ==> r[i] == samples[i] * dbToLinear(db)
  {
    Process(New(db), samples, dbToLinear)
  }

  /** In-place convenience wrapper; agrees with the copying one. */
  method GainDbInPlace(samples: seq<Sample>, db: real, dbToLinear: DbToLinear)
    returns (out: seq<Sample>)
    ensures out == GainDb(samples, db, dbToLinear)
  {
    out := ProcessInPlace(New(db), samples, dbToLinear);
  }

  /** At 0 dB the gain node is the identity on every buffer. */
  lemma UnityGain(xs: seq<Sample>, dbToLinear: DbToLinear)
    requires UnityAtZero(dbToLinear)
    ensures Process(New(0.0), xs, dbToLinear) == xs
  {
  }

  /** A gain set by `SetDb` is read back by `Db` and governs every later `Process`. */
  lemma SetDbTakesEffect(g: GainNode, db: real, xs: seq<Sample>, dbToLinear: DbToLinear)
    ensures Db(SetDb(g, db)) == db
    ensures Process(SetDb(g, db), xs, dbToLinear) == Process(New(db), xs, dbToLinear)
    ensures forall i :: 0 <= i < |xs| ==>
      Process(SetDb(g, db), xs, dbToLinear)[i] == xs[i] * dbToLinear(db)
  {
  }

  /** The node type tag is "gain", and a new node reports the dB it was built with. */
  lemma NodeProperties(db: real)
    ensures NodeType(New(db)) == "gain"
    ensures Db(New(db)) == db
  {
  }
}
