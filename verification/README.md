# pcaster sample-processing core in Dafny

This project models the `src/process` core of pcaster, a Rust audio library.
It covers:

- the `AudioNode` capability;
- the `GainNode`, which multiplies every sample by 10^(dB/20);
- the lookahead `LimiterNode`;
- the `AudioNodeChain`, which folds a buffer through its nodes in insertion order.

Samples are Dafny `real`s and buffers are `seq<real>`.

Modules, one per component:

- `Audio` (`audio.dfy`): the shared vocabulary. It has the sample type, the
  dB-to-linear conversion type `DbToLinear`, and the one fact assumed about
  that conversion (`UnityAtZero`: 0 dB maps to 1).
- `Gain` (`gain.dfy`): `gain.rs`.
- `Limiter` (`limiter.dfy`): `limiter.rs`. Each call of `process_sample` is a pure
  step, `ProcessSample(node, x) = (node', y)`. `Process` is the left-to-right
  fold of that step. The envelope and FIFO that the implementation hides in a
  `Cell`/`RefCell` are threaded explicitly.
- `LimiterStream` (`limiter_stream.dfy`): stream-level facts about the limiter.
  The central one is `DelayLine`. From an empty buffer, the limiter is a delay
  line of `Delay(lookahead) = max(lookahead - 1, 0)` samples. Each delayed
  sample is multiplied by a gain computed from the envelope of the undelayed
  input. During the fill phase the output is 0.0.
- `Node` (`node.rs`, the trait): a closed datatype `AudioNode = GainNode | LimiterNode`
  that replaces trait objects. `process` takes `&self` but mutates the
  limiter's state, so `Process` returns the node's next state together with
  the output.
- `Chain` (`node.rs`, the chain): `AudioNodeChain(nodes)`. `Process` runs the
  nodes in order and keeps each node's state after the call.

Every `process_in_place` is a method. It overwrites the buffer one slot at a
time, and its contract says the result equals the copying `Process`. The
chain's `process` starts from a copy of the input (`input.to_vec()`,
`src/process/node.rs:153`); in this value model `Process` never changes its
input sequence, so that holds by construction.

The model follows the code as written, not an idealised limiter:

- During the fill phase the limiter emits 0.0, not the input.
- The buffer-fill test is `len < lookahead_samples`. So the limiter holds back
  `lookahead_samples - 1` samples, not `lookahead_samples`. With a lookahead of
  0 or 1 there is no fill phase at all.
- The output stays within the threshold only for a lookahead of 0 or 1. With
  a longer lookahead, a peak can leave the limiter unattenuated: either it
  arrived during the fill phase, when the envelope is not updated, or the
  envelope has already released by the time the delayed peak is emitted.
  `FillPeakPassesThrough` and `ReleasedPeakPassesThrough` prove one instance
  of each.
- `threshold` is compared directly with the linear envelope. It is not
  converted from dB.
- `LimiterNode::new` validates nothing.

## Model

| member | source | states |
|---|---|---|
| Gain.New | src/process/gain.rs:62-64 | a new node reports, through `Db`, the dB value it was built with |
| Gain.SetDb | src/process/gain.rs:76-78 | after `set_db`, `Db` returns the new value |
| Gain.Db | src/process/gain.rs:67-69 | the value read is the node's whole content: the node is exactly `GainNode(db())` |
| Gain.Scale | src/process/gain.rs:84-86 | the map keeps the length, and output i is input i times the factor |
| Gain.Process | src/process/gain.rs:82-87 | same length as the input; `output[i] == input[i] * DbToLinear(db)` for every i |
| Gain.ProcessInPlace | src/process/gain.rs:89-94 | overwriting the buffer slot by slot gives exactly what `process` returns on a copy |
| Gain.GainDb | src/process/gain.rs:117-120 | the wrapper keeps the length and scales every sample by `DbToLinear(db)` |
| Gain.GainDbInPlace | src/process/gain.rs:130-133 | the in-place wrapper equals `gain_db` on a copy, and so equals `GainNode::new(db).process` |
| Gain.NodeType | src/process/gain.rs:96-98 | the tag is the constant `"gain"` |
| Gain.BoxClone | src/process/gain.rs:100-102 | the clone has the same dB value, the node's only field |
| Gain.UnityGain | src/process/gain.rs:146-155 | if 0 dB converts to 1, then at 0 dB the node returns every buffer unchanged |
| Gain.SetDbTakesEffect | src/process/gain.rs:66-78 | after `set_db(d)`, `db()` is d, and later `process` calls behave as `GainNode::new(d)`, scaling by `DbToLinear(d)` |
| Gain.NodeProperties | src/process/gain.rs:96-98 | the type tag is `"gain"`, and `new(d).db() == d` |
| Limiter.LookaheadSamples | src/process/limiter.rs:23 | the saturating `as usize` cast: 0 for non-positive products, floor within the `usize` range, `usize::MAX` above it |
| Limiter.New | src/process/limiter.rs:16-32 | envelope 0 and empty buffer; threshold and release coefficient stored unchanged; lookahead is the truncated `lookahead_sec * sample_rate` |
| Limiter.Delay | src/process/limiter.rs:38 | the samples held back: 0 for lookahead 0, otherwise lookahead-1 (the `<` test pops once the buffer reaches lookahead) |
| Limiter.Follow | src/process/limiter.rs:45-53 | attack takes a level above the envelope exactly; release closes the gap between envelope and level by the factor `release_coeff` |
| Limiter.GainFor | src/process/limiter.rs:55-59 | gain 1 at or below the threshold; above it, gain times envelope equals the threshold (the one unrepresentable case is listed under Left out) |
| Limiter.ProcessSample | src/process/limiter.rs:34-64 | configuration unchanged; fill phase iff the buffer is shorter than the delay; a fill step buffers the input, emits 0.0 and leaves the envelope alone; a steady step follows the newest sample and emits the oldest buffered sample times the gain, popping it |
| Limiter.Process | src/process/limiter.rs:70-77 | one output per input, with the configuration kept across the call |
| Limiter.ProcessInPlace | src/process/limiter.rs:79-83 | the in-place loop gives the same outputs and the same final state as `process`, from the same starting state |
| Limiter.NodeType | src/process/limiter.rs:85-87 | the tag is the constant `"limiter"` |
| Limiter.BoxClone | src/process/limiter.rs:89-91 | the derived `Clone` copies the configuration, the current envelope and the buffer |
| Limiter.FollowBounds | src/process/limiter.rs:45-53 | for a release coefficient in [0,1]: the envelope is at least the new level; attack takes the level exactly; release never rises above the old envelope |
| Limiter.GainBounds | src/process/limiter.rs:55-59 | gain is 1 when envelope <= threshold and threshold/envelope above it; for threshold > 0 it lies in (0,1], and gain times a non-negative envelope is at most the threshold |
| Limiter.EnvelopeStep | src/process/limiter.rs:42-53 | after a steady step the envelope is >= 0 and >= the newest sample's magnitude; in the release branch it does not increase |
| Limiter.SilenceDecays | src/process/limiter.rs:48-52 | a silent input with release coefficient in [0,1) strictly lowers a positive envelope and keeps it non-negative |
| Limiter.ZeroLookaheadStep | src/process/limiter.rs:36-61 | with lookahead 0 or 1 and an empty buffer, the sample popped is the one just examined, so the output magnitude is at most a positive threshold |
| LimiterStream.ProcessAppend | src/process/limiter.rs:70-77 | state carries across calls: processing xs and then ys equals processing xs ++ ys in one call |
| LimiterStream.ProcessFirst | src/process/limiter.rs:72-75 | the first input is processed first, by one `process_sample`, and the rest continue from that state |
| LimiterStream.BufferLength | src/process/limiter.rs:36-40 | from a buffer no longer than the delay, each input grows it by one up to `Delay(lookahead)`, where it stays |
| LimiterStream.FillStep | src/process/limiter.rs:36-40 | in the fill phase the input joins the buffer in arrival order and the output is 0.0 |
| LimiterStream.SteadyState | src/process/limiter.rs:42-61 | after a steady-phase input the buffer is again the last `Delay` inputs and the envelope has followed one more input |
| LimiterStream.SteadyOutput | src/process/limiter.rs:42-61 | a steady-phase output is the input `Delay` places earlier times the gain of the updated envelope |
| LimiterStream.SteadyStep | src/process/limiter.rs:42-61 | in the steady phase the output is the input `Delay` places earlier, times the gain of the envelope that has followed the inputs so far |
| LimiterStream.DelayLine | src/process/limiter.rs:34-77 | from an empty buffer: the buffer is the last min(n, Delay) inputs in order; the envelope has followed exactly the post-fill inputs; output i is 0 for i < Delay, and otherwise input i-Delay times that step's gain |
| LimiterStream.FreshBufferLength | src/process/limiter.rs:22-40 | for a node from `new`, after n inputs the buffer length is min(n, lookahead-1), or 0 when lookahead <= 1; it is always below lookahead or empty |
| LimiterStream.EnvelopeNonNegative | src/process/limiter.rs:45-53 | with a release coefficient in [0,1], a non-negative envelope stays non-negative over any stream |
| LimiterStream.ZeroLookaheadCeiling | src/process/limiter.rs:42-61 | with lookahead <= 1, threshold > 0 and release coefficient in [0,1], the buffer stays empty and every output is within the threshold in magnitude |
| LimiterStream.LoudScenario | src/process/limiter.rs:45-61 | threshold 0.5 and no lookahead: three samples at 1.0 come out as 0.5 each, instant attack and unity-level release |
| LimiterStream.FillScenario | src/process/limiter.rs:36-61 | lookahead 3: the first two outputs are 0.0, and later inputs come out two places late |
| LimiterStream.FillPeakPassesThrough | src/process/limiter.rs:36-61 | lookahead 3, threshold 0.5: a 1.0 peak that arrives during the fill phase comes out as 1.0 two samples later |
| LimiterStream.ReleasedPeakPassesThrough | src/process/limiter.rs:42-61 | lookahead 2, threshold 0.5, release coefficient 0: the envelope falls back before the delayed 1.0 peak is emitted, and the peak comes out as 1.0 |
| Node.Process | src/process/node.rs:70 | same length as the input; the variant and type tag are kept; a gain node is unchanged; a limiter keeps its configuration |
| Node.ProcessInPlace | src/process/node.rs:81 | in-place processing equals `process` on a copy, from the same node state, for every variant |
| Node.NodeType | src/process/node.rs:87 | a gain node's tag is `"gain"` and a limiter's is `"limiter"` |
| Node.BoxClone | src/process/node.rs:94 | the clone has the same variant and tag, the same configuration, and a copy of the current envelope and buffer |
| Node.NodeTypeTags | src/process/node.rs:87 | the type tag is constant per variant and tells them apart: `"gain"` iff gain node, `"limiter"` iff limiter |
| Node.BoxCloneAgrees | src/process/node.rs:89-94 | a clone has the same tag and gives the same output and next state as the original on the same input |
| Node.CloneContinuesStream | src/process/limiter.rs:6-13 | a clone taken mid-stream copies the envelope and buffer, not a reset: fed the rest of the stream, it emits what the original would have emitted in one call |
| Chain.New | src/process/node.rs:125-127 | a new chain has no nodes |
| Chain.AddNode | src/process/node.rs:136-138 | appends exactly one node at the end and keeps the earlier nodes in order |
| Chain.Run | src/process/node.rs:152-158 | the fold keeps one node per node, each node's type tag, and the buffer length |
| Chain.RunSnoc | src/process/node.rs:154-156 | one more node at the end of the loop is one more node `process` on the output so far |
| Chain.Process | src/process/node.rs:152-158 | same node count and the same output length as the input |
| Chain.ProcessInPlace | src/process/node.rs:169-173 | running every node in place over one buffer gives the same buffer and node states as `process` on a copy |
| Chain.EmptyChainIdentity | src/process/node.rs:237-242 | the empty chain returns its input unchanged and stays empty |
| Chain.ProcessAddNode | src/process/node.rs:136-158 | a node added last runs on the whole output of the chain before it |
| Chain.TwoNodeChain | src/process/node.rs:244-265 | the chain [A, B] outputs `B.process(A.process(x))` |
| Chain.RunConcat | src/process/node.rs:154-156 | splitting the node list anywhere: the front part's output is the back part's input, and node states stay in order |
| Chain.RunConcatStep | src/process/node.rs:154-156 | if the split law holds for a back part, it still holds after one more node is appended to that back part |
| Chain.ProcessFirstNode | src/process/node.rs:140-158 | the first node processes the input and the rest of the chain processes its output |

## Left out

- f32 arithmetic: samples are reals, so rounding, overflow to infinity and NaN are not modelled.
- `powf`: 10^(dB/20) is the caller-supplied function `dbToLinear`. The only fact assumed about it is `dbToLinear(0) == 1`, and only the unity-gain lemma uses it. The approximate factors 1.995262 and 0.501187 from the gain tests are floating-point facts and are not stated.
- `exp`: the release coefficient exp(-1/(sample_rate * release_time_sec)) is passed to `Limiter.New` already computed. The envelope lemmas assume it lies in [0, 1].
- Limiter.GainFor: the implementation divides by zero when the threshold is negative and the envelope is exactly 0, giving an infinity. Reals have no infinity, so the model returns gain 0.0 there. Every other case computes threshold/envelope or 1 as written.
- Limiter.LookaheadSamples: a NaN product, which the cast maps to 0, has no real counterpart.
- Trait objects and `Box<dyn AudioNode>`: the node set is closed (`GainNode | LimiterNode`). The test-only `TestNode` multiplier has the same shape as a gain node and is not a separate variant.
- `Cell`/`RefCell` interior mutability: replaced by explicit state passed into and returned from `Process`. A clone shares nothing with the original because values are immutable.
- `VecDeque::with_capacity` and `Vec::with_capacity`: capacity hints with no observable effect.
- `#[derive(Default)]` on the chain is the same as `Chain.New`.
- `src/io/reader.rs`, `src/io/writer.rs` and `src/io/mod.rs` (file decoding and encoding), `src/analytic/loudness.rs` (a wrapper over an external loudness meter), `src/lib.rs` (module declarations) and the `examples/` programs are not part of this model. They are I/O, external libraries or printing.
