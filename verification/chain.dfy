/**
 An ordered chain of audio nodes. Processing passes the whole buffer through
 the first node, its whole output through the second, and so on, in insertion
 order; each node's state after the call is kept in the chain.
 */
module Chain {
  import opened Audio
  import Node

  datatype AudioNodeChain = AudioNodeChain(nodes: seq<Node.AudioNode>)

  function New(): (c: AudioNodeChain)
    ensures |c.nodes| == 0
  {
    AudioNodeChain([])
  }

  /** Appends one node after all earlier ones. */
  function AddNode(c: AudioNodeChain, n: Node.AudioNode): (r: AudioNodeChain)
    ensures |r.nodes| == |c.nodes| + 1
    ensures r.nodes[..|c.nodes|] == c.nodes
    ensures r.nodes[|c.nodes|] == n
  {
    AudioNodeChain(c.nodes + [n])
  }

  /**
   Runs `xs` through `nodes` in order, the loop of `process`: the nodes'
   states after the call, and the last node's output.
   */
  function Run(nodes: seq<Node.AudioNode>, xs: seq<Sample>, dbToLinear: DbToLinear)
    : (r: (seq<Node.AudioNode>, seq<Sample>))
    ensures |r.0| == |nodes|
    ensures |r.1| == |xs|
    ensures forall i :: 0 <= i < |nodes| ==> Node.NodeType(r.0[i]) == Node.NodeType(nodes[i])
    decreases |nodes|
  {
    if |nodes| == 0 then ([], xs)
    else
      var (done, ys) := Run(nodes[..|nodes| - 1], xs, dbToLinear);
      var (last, zs) := Node.Process(nodes[|nodes| - 1], ys, dbToLinear);
      (done + [last], zs)
  }

  /** `process`: the chain after the call and the processed copy of the input. */
  function Process(c: AudioNodeChain, xs: seq<Sample>, dbToLinear: DbToLinear)
    : (r: (AudioNodeChain, seq<Sample>))
    ensures |r.0.nodes| == |c.nodes|
    ensures |r.1| == |xs|
  {
    var (nodes, ys) := Run(c.nodes, xs, dbToLinear);
    (AudioNodeChain(nodes), ys)
  }

  /**
   `process_in_place`: every node in order overwrites the caller's buffer;
   the result equals `Process` on a copy.
   */
  method ProcessInPlace(c: AudioNodeChain, buffer: seq<Sample>, dbToLinear: DbToLinear)
    returns (c': AudioNodeChain, out: seq<Sample>)
    ensures |out| == |buffer|
    ensures (c', out) == Process(c, buffer, dbToLinear)
  {
    var done: seq<Node.AudioNode> := [];
    out := buffer;
    var i := 0;
    while i < |c.nodes|
      invariant 0 <= i <= |c.nodes|
      invariant (done, out) == Run(c.nodes[..i], buffer, dbToLinear)
    {
      assert c.nodes[..i + 1][..i] == c.nodes[..i];
      var next;
      next, out := Node.ProcessInPlace(c.nodes[i], out, dbToLinear);
      done := done + [next];
      i := i + 1;
    }
    assert c.nodes[..i] == c.nodes;
    c' := AudioNodeChain(done);
  }

  /** The empty chain is the identity for both variants of processing. */
  lemma EmptyChainIdentity(xs: seq<Sample>, dbToLinear: DbToLinear)
    ensures Process(New(), xs, dbToLinear) == (New(), xs)
  {
  }

  /** Adding a node runs it last, on the output of the chain before it. */
  lemma ProcessAddNode(c: AudioNodeChain, n: Node.AudioNode, xs: seq<Sample>, dbToLinear: DbToLinear)
    ensures var (c1, ys) := Process(c, xs, dbToLinear);
            var (n1, zs) := Node.Process(n, ys, dbToLinear);
            Process(AddNode(c, n), xs, dbToLinear) == (AddNode(c1, n1), zs)
  {
    assert (c.nodes + [n])[..|c.nodes|] == c.nodes;
  }

  /** A chain of `a` then `b` gives `b`'s output on `a`'s output. */
  lemma TwoNodeChain(a: Node.AudioNode, b: Node.AudioNode, xs: seq<Sample>, dbToLinear: DbToLinear)
    ensures Process(AddNode(AddNode(New(), a), b), xs, dbToLinear).1
         == Node.Process(b, Node.Process(a, xs, dbToLinear).1, dbToLinear).1
  {
    ProcessAddNode(New(), a, xs, dbToLinear);
    ProcessAddNode(AddNode(New(), a), b, xs, dbToLinear);
  }

  /**
   Splitting a chain anywhere: the front part's output is the back part's
   input, and the node states of both parts are kept in order.
   */
  lemma {:induction false} RunConcat(front: seq<Node.AudioNode>, back: seq<Node.AudioNode>,
                                     xs: seq<Sample>, dbToLinear: DbToLinear)
    ensures Run(front + back, xs, dbToLinear)
         == (Run(front, xs, dbToLinear).0 + Run(back, Run(front, xs, dbToLinear).1, dbToLinear).0,
             Run(back, Run(front, xs, dbToLinear).1, dbToLinear).1)
    decreases |back|
  {
    if |back| == 0 {
      assert front + back == front;
      assert Run(front, xs, dbToLinear).0 + [] == Run(front, xs, dbToLinear).0;
    } else {
      var init, n := back[..|back| - 1], back[|back| - 1];
      assert init + [n] == back;
      RunConcat(front, init, xs, dbToLinear);
      RunConcatStep(front, init, n, xs, dbToLinear);
    }
  }

  /** The inductive step of `RunConcat`: one more node at the end of the back part. */
  lemma RunConcatStep(front: seq<Node.AudioNode>, init: seq<Node.AudioNode>, n: Node.AudioNode,
                      xs: seq<Sample>, dbToLinear: DbToLinear)
    requires Run(front + init, xs, dbToLinear)
          == (Run(front, xs, dbToLinear).0 + Run(init, Run(front, xs, dbToLinear).1, dbToLinear).0,
              Run(init, Run(front, xs, dbToLinear).1, dbToLinear).1)
    ensures Run(front + (init + [n]), xs, dbToLinear)
         == (Run(front, xs, dbToLinear).0 + Run(init + [n], Run(front, xs, dbToLinear).1, dbToLinear).0,
             Run(init + [n], Run(front, xs, dbToLinear).1, dbToLinear).1)
  {
    var r1 := Run(front, xs, dbToLinear);
    var r2 := Run(init, r1.1, dbToLinear);
    var s := Node.Process(n, r2.1, dbToLinear);
    RunSnoc(init, n, r1.1, dbToLinear);
    var whole := front + init;
    var rw := Run(whole, xs, dbToLinear);
    assert rw.0 == r1.0 + r2.0 && rw.1 == r2.1;
    RunSnoc(whole, n, xs, dbToLinear);
    assert Run(whole + [n], xs, dbToLinear) == (rw.0 + [s.0], s.1);
    AppendAssoc(front, init, [n]);
    AppendAssoc(r1.0, r2.0, [s.0]);
  }

  lemma AppendAssoc<T>(a: seq<T>, b: seq<T>, c: seq<T>)
    ensures (a + b) + c == a + (b + c)
  {
  }

  /** Running one more node after a list is one more `Node.Process` on its output. */
  lemma RunSnoc(nodes: seq<Node.AudioNode>, n: Node.AudioNode, xs: seq<Sample>, dbToLinear: DbToLinear)
    ensures Run(nodes + [n], xs, dbToLinear)
         == (Run(nodes, xs, dbToLinear).0 + [Node.Process(n, Run(nodes, xs, dbToLinear).1, dbToLinear).0],
             Node.Process(n, Run(nodes, xs, dbToLinear).1, dbToLinear).1)
  {
    assert (nodes + [n])[..|nodes|] == nodes;
  }

  /**
   The chain is the fold of its nodes taken first to last: the first node
   processes the input and the rest of the chain processes its output.
   */
  lemma ProcessFirstNode(n: Node.AudioNode, rest: seq<Node.AudioNode>, xs: seq<Sample>,
                         dbToLinear: DbToLinear)
    ensures var (n1, ys) := Node.Process(n, xs, dbToLinear);
            var (c1, zs) := Process(AudioNodeChain(rest), ys, dbToLinear);
            Process(AudioNodeChain([n] + rest), xs, dbToLinear) == (AudioNodeChain([n1] + c1.nodes), zs)
  {
    RunConcat([n], rest, xs, dbToLinear);
    assert [n][..0] == [];
    var (n1, ys) := Node.Process(n, xs, dbToLinear);
    assert Run([n][..0], xs, dbToLinear) == ([], xs);
    assert Run([n], xs, dbToLinear) == ([] + [n1], ys);
    assert [] + [n1] == [n1];
  }
}
