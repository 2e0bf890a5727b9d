# A verified model of the neural-net tutorial network

The tutorial program is a fully connected feed-forward network trained by
back-propagation with momentum. Its core is three C++ classes in one file:

- `Connection`: a weight and the last change made to it;
- `Neuron`: an output, a gradient, its own index, and the connections it owns
  into the next layer;
- `Net`: a vector of layers. Every layer ends with a bias neuron whose output
  is 1.0.

This project models that core as pure Dafny functions over immutable data.

- `neurons.dfy` (module `Neurons`) holds the neuron-level steps:
  - the weighted input sum and forward evaluation;
  - the output-layer and hidden-layer gradients, with `sumDOW`;
  - the transfer-function derivative `1 - y*y`;
  - the momentum rule and `updateInputWeights`;
  - whole-layer versions of these steps.
- `network.dfy` (module `Network`) holds the net:
  - construction from a topology;
  - the forward pass, which latches the inputs and then evaluates each later
    layer from the one before it;
  - back-propagation: the RMS error and its running average, then the output
    gradients, then the hidden gradients from the next-to-last layer down to
    layer 1, and only then the weight updates;
  - reading the results.

  `Valid(net, topology)` is the shape that construction sets up and every
  operation keeps. Each layer `l` has `topology[l] + 1` neurons. Every neuron
  sits at the position its index names. Each neuron has one connection per
  non-bias neuron of the next layer, and none in the last layer. Every bias
  neuron outputs 1.0.
- `properties.dfy` (module `NetworkProperties`) relates the operations:
  - what a caller reads back after a forward pass;
  - that the previous outputs do not matter to a forward pass;
  - that training changes no result;
  - that the squared error vanishes exactly on a perfect fit;
  - that training a perfectly fitting network moves its weights by momentum
    alone.

Doubles are modelled as `real`. `tanh` and `sqrt` are parameters that the
model never looks inside, so every property holds for any transfer function
and any square root. The training rate `eta`, the momentum `alpha` and the
random initial weights are parameters too. The topology is a ghost argument:
the network does not store it, and it only names the shape `Valid` promises.

Three behaviours of the source shape the model's error handling:

- **No target check.** Back-propagation does not check the length of the
  target vector: it reads `targetVals[n]` (line 164) for every non-bias output
  neuron and ignores any extra targets. `BackProp` therefore requires
  `topology[last] <= |targets|` and accepts longer vectors.
- **No topology check.** The constructor (lines 230-247) checks nothing, so
  `Construct` accepts every topology. What back-propagation needs of the
  topology (at least two layers and at least one output neuron) is a
  precondition of `BackProp`.
- **Forward assertion.** The forward pass's `assert` on the input length
  (line 209) is modelled as `Failure(DimensionMismatch)`.

## Model

| member | source | states |
|---|---|---|
| Neurons.FeedForward | neural-net-tutorial/neural-net-tutorial.cpp:109-119 | evaluating a neuron changes only its output; the connection it reads in every neuron of the previous layer, the bias neuron included, must exist |
| Neurons.TransferDerivativeZeroIff | neural-net-tutorial/neural-net-tutorial.cpp:103-107 | the derivative `1 - y*y` vanishes exactly when the output is 1 or -1, the ends of tanh's range |
| Neurons.CalcOutputGradients | neural-net-tutorial/neural-net-tutorial.cpp:85-89 | an output neuron's gradient step changes only its gradient, and the gradient is zero exactly when the output hits its target or the neuron is saturated |
| Neurons.CalcHiddenGradients | neural-net-tutorial/neural-net-tutorial.cpp:91-95 | a hidden neuron's gradient step changes only its gradient, a saturated neuron gets gradient zero, and the step needs one connection per non-bias neuron of the next layer, so `sumDOW` stays in bounds |
| Neurons.Momentum | neural-net-tutorial/neural-net-tutorial.cpp:59-70 | the new weight is the old weight plus the new delta, and the new delta minus `alpha` times the old delta is `eta * output * gradient` |
| Neurons.UpdateInputWeights | neural-net-tutorial/neural-net-tutorial.cpp:52-71 | in every neuron of the previous layer only connection `myIndex` changes, by the momentum rule with this neuron's gradient; outputs, gradients, indices and all other connections are unchanged |
| Neurons.FeedForwardLayer | neural-net-tutorial/neural-net-tutorial.cpp:222-225 | every non-bias neuron of the layer is evaluated from the previous layer, and the bias neuron is left as it was |
| Neurons.OutputGradients | neural-net-tutorial/neural-net-tutorial.cpp:175-178 | every non-bias output neuron gets its gradient against its own target, and the bias neuron is left as it was |
| Neurons.HiddenLayerGradients | neural-net-tutorial/neural-net-tutorial.cpp:187-189 | every neuron of a hidden layer, the bias neuron included, gets its gradient from the next layer |
| Neurons.UpdateLayerWeights | neural-net-tutorial/neural-net-tutorial.cpp:200-203 | after the first `k` neurons of a layer update their inputs, connection `c < k` of every previous-layer neuron has had exactly one momentum step with the gradient of neuron `c`, and the other connections are unchanged |
| Network.Construct | neural-net-tutorial/neural-net-tutorial.cpp:230-247 | the new network is valid for its topology (layer sizes, fan-out, indices and pinned bias outputs), every connection holds its random weight with a zero delta, and the error statistics are the given ones |
| Network.Latch | neural-net-tutorial/neural-net-tutorial.cpp:211-215 | input `i` lands in the output of input neuron `i`; neurons past the inputs, the bias neuron among them, are unchanged, and nothing but outputs changes |
| Network.LatchKeepsShape | neural-net-tutorial/neural-net-tutorial.cpp:209-215 | latching inputs of the right width keeps the shape and the pinned bias outputs, and changes only outputs |
| Network.Propagate | neural-net-tutorial/neural-net-tutorial.cpp:217-226 | layers are evaluated in increasing order, each from the already evaluated layer before it; only outputs change and the shape is kept |
| Network.PropagateEvaluates | neural-net-tutorial/neural-net-tutorial.cpp:218-226 | after propagation every non-bias neuron past layer 0 outputs the transfer of its weighted input from the final previous layer, and every bias neuron keeps its output |
| Network.Forward | neural-net-tutorial/neural-net-tutorial.cpp:206-227 | fails exactly when the input width is not the input layer's non-bias count; otherwise keeps validity, changes only outputs, latches the inputs and evaluates every non-bias neuron from the previous layer |
| Network.ResultsUpTo | neural-net-tutorial/neural-net-tutorial.cpp:151-154 | the loop pushes the first `k` outputs of the layer, in index order |
| Network.Results | neural-net-tutorial/neural-net-tutorial.cpp:147-155 | the results are the outputs of the last layer's non-bias neurons in index order, one per non-bias neuron |
| Network.HiddenStart | neural-net-tutorial/neural-net-tutorial.cpp:182 | from two layers on, the hidden-gradient loop starts at the next-to-last layer, so a two-layer network skips it; below two layers the unsigned start wraps to a positive value below 2^32 that is not a layer of the network, so the loop is entered and indexes out of range |
| Network.HiddenGradients | neural-net-tutorial/neural-net-tutorial.cpp:180-190 | layers `l` down to 1 get hidden gradients from the gradients that the next layer already holds; layer 0 and the layers after `l` are untouched, and only gradients change |
| Network.HiddenLayerKeepsShape | neural-net-tutorial/neural-net-tutorial.cpp:184-189 | computing one hidden layer's gradients keeps the shape and changes only gradients |
| Network.HiddenGradientsStep | neural-net-tutorial/neural-net-tutorial.cpp:182-190 | one step of the downward hidden-gradient loop leaves layer `l` final for the steps below it |
| Network.UpdateWeights | neural-net-tutorial/neural-net-tutorial.cpp:195-204 | for layers `l` down to 1, every connection into a non-bias neuron takes one momentum step with that neuron's gradient; only connection values change and the shape is kept |
| Network.UpdateLayerKeepsShape | neural-net-tutorial/neural-net-tutorial.cpp:197-203 | updating the connections into one layer keeps the shape and changes only connection values |
| Network.UpdateWeightsStep | neural-net-tutorial/neural-net-tutorial.cpp:195-204 | one step of the downward weight loop: the layers it has finished keep their updates and the layers after it are untouched |
| Network.UpdateWeightsLayer | neural-net-tutorial/neural-net-tutorial.cpp:200-203 | the connections out of layer `l - 1` each take one momentum step with the gradient of their target neuron in layer `l` |
| Network.SmoothError | neural-net-tutorial/neural-net-tutorial.cpp:171 | the new running average times `smoothingFactor + 1` equals the old average times the factor plus the new error |
| NetworkProperties.SmoothErrorBetween | neural-net-tutorial/neural-net-tutorial.cpp:171 | with a non-negative smoothing factor the new running average lies between the old average and the newest error |
| NetworkProperties.SmoothErrorSteady | neural-net-tutorial/neural-net-tutorial.cpp:171 | an error equal to the running average leaves the average unchanged |
| Network.BackPropLayers | neural-net-tutorial/neural-net-tutorial.cpp:173-204 | the shape, pinned bias outputs, outputs and indices are kept; output gradients come from the targets and the original outputs; hidden gradients come from the original weights, so no weight has changed before every gradient is final; layer 0 gradients and the output layer's bias gradient are unchanged; every connection takes one momentum step with its final target gradient |
| Network.BackProp | neural-net-tutorial/neural-net-tutorial.cpp:156-171 | the error is `sqrt` of the mean squared difference over the non-bias outputs, read before training; the running average is smoothed with it; the result is valid and its layers are those `BackPropLayers` describes |
| Network.OutputGradientsKeepShape | neural-net-tutorial/neural-net-tutorial.cpp:175-178 | the output-gradient loop keeps the shape and changes only gradients |
| Network.BackPropFrame | neural-net-tutorial/neural-net-tutorial.cpp:173-204 | back-propagation changes no output, index or connection count, and the bias outputs stay pinned |
| Neurons.SumDOWReadsGradients | neural-net-tutorial/neural-net-tutorial.cpp:73-84 | `sumDOW` depends on the next layer only through its gradients |
| Network.BackPropGradients | neural-net-tutorial/neural-net-tutorial.cpp:173-190 | the gradients held after the weight loop are those the two gradient loops computed from the original outputs and weights, and layer 0 and the output bias neuron keep their gradients |
| Network.BackPropWeights | neural-net-tutorial/neural-net-tutorial.cpp:192-204 | the weight updates, stated against the network before any gradient changed, read the final gradients |
| NetworkProperties.BiasNeverFed | neural-net-tutorial/neural-net-tutorial.cpp:222-224 | a neuron of layer `l` owns an incoming connection in every neuron of layer `l - 1` exactly when it is not the bias neuron, so the forward loop must stop before the bias |
| NetworkProperties.ResultsAfterForward | neural-net-tutorial/neural-net-tutorial.cpp:206-227 | a forward pass on inputs of the right width succeeds, and the results then hold one value per output neuron: the transfer of its weighted input, or the inputs themselves for a one-layer network |
| NetworkProperties.ResultsOfFedNet | neural-net-tutorial/neural-net-tutorial.cpp:147-155 | what the results are for any valid network whose outputs a forward pass set |
| NetworkProperties.ForwardForgetsOutputs | neural-net-tutorial/neural-net-tutorial.cpp:211-226 | two networks that differ only in their outputs give the same network after a forward pass on the same inputs |
| NetworkProperties.FedLayersAgree | neural-net-tutorial/neural-net-tutorial.cpp:218-226 | by induction over the layers, two valid networks that differ only in outputs, and whose outputs are those a forward pass on the same inputs leaves, agree layer by layer |
| NetworkProperties.BackPropKeepsResults | neural-net-tutorial/neural-net-tutorial.cpp:156-204 | the results read after back-propagation are the results read before it |
| NetworkProperties.ResultsReadOutputs | neural-net-tutorial/neural-net-tutorial.cpp:147-155 | the results depend only on the last layer's outputs and shape |
| NetworkProperties.SquaredErrorNonNegative | neural-net-tutorial/neural-net-tutorial.cpp:162-166 | the summed squared error is never negative |
| NetworkProperties.SquaredErrorZeroIff | neural-net-tutorial/neural-net-tutorial.cpp:162-166 | the summed squared error is zero exactly when every output it covers equals its target |
| Neurons.SumDOWOfZeroGradients | neural-net-tutorial/neural-net-tutorial.cpp:73-84 | `sumDOW` over a next layer whose gradients are zero is zero |
| NetworkProperties.OnTargetZeroGradients | neural-net-tutorial/neural-net-tutorial.cpp:175-178 | when every output hits its target, every output gradient is zero |
| NetworkProperties.ZeroGradientsPropagate | neural-net-tutorial/neural-net-tutorial.cpp:180-190 | zero gradients in the output layer give zero gradients on the non-bias neurons of every hidden layer |
| NetworkProperties.ZeroGradientsOnlyMomentum | neural-net-tutorial/neural-net-tutorial.cpp:59-70 | a weight update driven by zero gradients sets each delta to `alpha` times the previous delta |
| NetworkProperties.PerfectFitZeroError | neural-net-tutorial/neural-net-tutorial.cpp:158-168 | a network whose outputs all hit their targets gets error `sqrt(0)` |
| NetworkProperties.PerfectFitOnlyMomentum | neural-net-tutorial/neural-net-tutorial.cpp:173-204 | training a network whose outputs all hit their targets changes every connection by momentum alone, whatever `eta` is |
| NetworkProperties.OnTargetOnlyMomentum | neural-net-tutorial/neural-net-tutorial.cpp:173-204 | the same conclusion for any layers that satisfy what back-propagation promises |

## Left out

- `main`, the training-file reader, the training loop and the console loop are
  input and output, and are not modelled.
- The "made a neuron" console message in the constructor is output only.
- `rand()` is not modelled. `Construct` takes `randomWeight(l, n, c)`, the
  initial weight of connection `c` of neuron `n` in layer `l`.
- IEEE double rounding is not modelled. `tanh` and `sqrt` are uninterpreted
  parameters, so nothing about their values, convergence or learning progress
  is claimed.
- The static `eta = 0.15` and `alpha = 0.5` are explicit parameters of the
  back-propagation functions, so every property holds for every rate.
- The constructor never sets the error, the running average or the smoothing
  factor. `Construct` takes their initial values as an `ErrorStats` parameter.
- Network.Construct: the constructor leaves non-bias outputs and all gradients
  uninitialised. The model stores 0.0 there, and the contract says nothing
  about those fields.
- The 32-bit `unsigned` sizes and loop counters are unbounded `nat` values.
  The one wrap-around that matters, at the start of the hidden-gradient loop,
  is written out in `HiddenStart`.
- Network.BackProp: the source has no preconditions. The model requires:
  - at least two layers, because below that the loop start wraps and the layer
    index is out of range;
  - at least one output neuron, because otherwise the error is divided by zero;
  - `smoothingFactor + 1 != 0`, because that value is a divisor;
  - at least one target per output neuron, because `targetVals[n]` is read
    unchecked.

  These cases are undefined behaviour or a division by zero in the source, not
  outcomes the model could state.
- Network.BackPropLayers: needs the same shape requirements as `BackProp`
  except the error divisors, which it does not compute.
- Neurons.FeedForward: its contract states only what the call changes. The
  value it computes is stated for whole layers by `Network.Forward`.
- `transferFunction` is not a separate member: `tanh` is a parameter.
