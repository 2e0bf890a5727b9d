/** The tutorial's `Net`: a sequence of layers built from a topology, driven
    forward by `Forward`, trained by `BackProp`, and read by `Results`.

    The topology is a ghost parameter: the network never stores it, it only
    names the shape that `Valid` promises. `tanh`, `sqrt` and the random weight
    source are parameters that the model never interprets. */
module Network {
  import opened Neurons

  /** The scalar state of the network besides its layers: the RMS error of the
      last back-propagation, its running average, and the smoothing factor of
      that average. */
  datatype ErrorStats = ErrorStats(error: real, recentAverageError: real, smoothingFactor: real)

  datatype Net = Net(layers: seq<Layer>, stats: ErrorStats)

  /** The one failure the source detects: an input vector whose length is not
      the number of input neurons. */
  datatype NetError = DimensionMismatch

  datatype Result<T> = Success(value: T) | Failure(error: NetError)

  /** Connections per neuron of layer `l`: one per non-bias neuron of the next
      layer, and none in the last layer. */
  function FanOut(topology: seq<nat>, l: nat): nat
    requires l < |topology|
  {
    if l == |topology| - 1 then 0 else topology[l + 1]
  }

  /** The shape construction sets up and no operation changes. Layer `l` holds
      `topology[l]` ordinary neurons plus the trailing bias neuron. */
  ghost predicate Shaped(layers: seq<Layer>, topology: seq<nat>) {
    && |layers| == |topology|
    && (forall l {:trigger layers[l]} :: 0 <= l < |layers| ==> |layers[l]| == topology[l] + 1)
    && (forall l :: 0 <= l < |layers| ==> IndexedByPosition(layers[l]))
    && (forall l, n :: 0 <= l < |layers| && 0 <= n < |layers[l]| ==>
          |layers[l][n].outputWeights| == FanOut(topology, l))
  }

  /** The last neuron of every layer outputs exactly 1.0. */
  ghost predicate BiasPinned(layers: seq<Layer>) {
    forall l :: 0 <= l < |layers| ==> 1 <= |layers[l]| && layers[l][|layers[l]| - 1].output == 1.0
  }

  ghost predicate Valid(net: Net, topology: seq<nat>) {
    Shaped(net.layers, topology) && BiasPinned(net.layers)
  }

  /** `b` differs from `a` at most in neuron outputs. */
  ghost predicate OnlyOutputsDiffer(a: seq<Layer>, b: seq<Layer>) {
    && |a| == |b|
    && (forall l :: 0 <= l < |a| ==> |a[l]| == |b[l]|)
    && (forall l, n {:trigger a[l][n], b[l][n]} :: 0 <= l < |a| && 0 <= n < |a[l]| ==> b[l][n] == a[l][n].(output := b[l][n].output))
  }

  /** `b` differs from `a` at most in neuron gradients. */
  ghost predicate OnlyGradientsDiffer(a: seq<Layer>, b: seq<Layer>) {
    && |a| == |b|
    && (forall l :: 0 <= l < |a| ==> |a[l]| == |b[l]|)
    && (forall l, n {:trigger a[l][n], b[l][n]} :: 0 <= l < |a| && 0 <= n < |a[l]| ==> b[l][n] == a[l][n].(gradient := b[l][n].gradient))
  }

  /** `b` differs from `a` at most in the values of connections, not their number. */
  ghost predicate OnlyWeightsDiffer(a: seq<Layer>, b: seq<Layer>) {
    && |a| == |b|
    && (forall l :: 0 <= l < |a| ==> |a[l]| == |b[l]|)
    && (forall l, n {:trigger a[l][n], b[l][n]} :: 0 <= l < |a| && 0 <= n < |a[l]| ==>
          b[l][n] == a[l][n].(outputWeights := b[l][n].outputWeights)
          && |b[l][n].outputWeights| == |a[l][n].outputWeights|)
  }

  /** Outputs, indices and connection counts agree; gradients and connection
      values may differ. */
  ghost predicate SameOutputsAndShape(a: seq<Layer>, b: seq<Layer>) {
    && |a| == |b|
    && (forall l :: 0 <= l < |a| ==> |a[l]| == |b[l]|)
    && (forall l, n {:trigger a[l][n], b[l][n]} :: 0 <= l < |a| && 0 <= n < |a[l]| ==>
          && b[l][n].output == a[l][n].output
          && b[l][n].index == a[l][n].index
          && |b[l][n].outputWeights| == |a[l][n].outputWeights|)
  }

  // ---------------------------------------------------------------- construction

  /** A neuron as the source's constructor leaves it: `numOutputs` connections
      with random weights and zero deltas. Its output and gradient are
      uninitialised in the source; the model puts 0.0 there. */
  function MakeNeuron(numOutputs: nat, l: nat, myIndex: nat, randomWeight: (nat, nat, nat) -> real): Neuron {
    Neuron(0.0, 0.0, myIndex, seq(numOutputs, (c: nat) => Connection(randomWeight(l, myIndex, c), 0.0)))
  }

  /** Layer `l`: `topology[l] + 1` neurons, the last of which is the bias neuron
      whose output is forced to 1.0. */
  function MakeLayer(topology: seq<nat>, l: nat, randomWeight: (nat, nat, nat) -> real): Layer
    requires l < |topology|
  {
    var numOutputs := FanOut(topology, l);
    seq(topology[l] + 1, (n: nat) =>
      var neuron := MakeNeuron(numOutputs, l, n, randomWeight);
      if n == topology[l] then neuron.(output := 1.0) else neuron)
  }

  /** `randomWeight(l, n, c)` is the initial weight of connection `c` of neuron
      `n` in layer `l`: the source draws it from `rand()`. */
  function Construct(topology: seq<nat>, randomWeight: (nat, nat, nat) -> real, stats: ErrorStats): (r: Net)
    ensures Valid(r, topology)
    ensures r.stats == stats
    ensures forall l, n, c :: 0 <= l < |r.layers| && 0 <= n < |r.layers[l]| && 0 <= c < |r.layers[l][n].outputWeights| ==>
      r.layers[l][n].outputWeights[c] == Connection(randomWeight(l, n, c), 0.0)
  {
    Net(seq(|topology|, l requires 0 <= l < |topology| => MakeLayer(topology, l, randomWeight)), stats)
  }

  // ---------------------------------------------------------------- forward

  /** Write `inputs[i]` into the output of input neuron `i`; the neurons past
      the inputs, the bias neuron among them, are left alone. */
  function Latch(layer: Layer, inputs: seq<real>): (r: Layer)
    requires |inputs| < |layer|
    ensures |r| == |layer|
    ensures forall i :: 0 <= i < |layer| ==> r[i] == layer[i].(output := r[i].output)
    ensures forall i :: 0 <= i < |inputs| ==> r[i].output == inputs[i]
    ensures forall i :: |inputs| <= i < |layer| ==> r[i] == layer[i]
  {
    seq(|layer|, i requires 0 <= i < |layer| =>
      if i < |inputs| then layer[i].(output := inputs[i]) else layer[i])
  }

  /** Evaluate layers `l`, `l + 1`, ... in increasing order, each from the
      already evaluated layer before it. */
  function Propagate(ghost topology: seq<nat>, layers: seq<Layer>, l: nat, tanh: real -> real): (r: seq<Layer>)
    requires Shaped(layers, topology)
    requires 1 <= l <= |layers|
    decreases |layers| - l
    ensures Shaped(r, topology)
    ensures OnlyOutputsDiffer(layers, r)
    ensures forall k :: 0 <= k < l ==> r[k] == layers[k]
    ensures forall k :: l <= k < |layers| ==> r[k] == FeedForwardLayer(layers[k], r[k - 1], tanh)
  {
    if l == |layers| then layers
    else
      var next := layers[l := FeedForwardLayer(layers[l], layers[l - 1], tanh)];
      Propagate(topology, next, l + 1, tanh)
  }

  /** Every non-bias neuron past the input layer outputs the transfer of its
      weighted input, summed over the whole layer before it, bias included. */
  ghost predicate Evaluated(layers: seq<Layer>, topology: seq<nat>, tanh: real -> real)
    requires Shaped(layers, topology)
  {
    forall l, n :: 1 <= l < |topology| && 0 <= n < topology[l] ==>
      layers[l][n].output == tanh(WeightedSum(layers[l - 1], n, topology[l - 1] + 1))
  }

  /** The source asserts that the input vector has one value per input neuron;
      a failed assertion is `Failure(DimensionMismatch)`. Otherwise the inputs
      are latched and every later layer is evaluated from the one before it. */
  function Forward(net: Net, ghost topology: seq<nat>, inputs: seq<real>, tanh: real -> real): (r: Result<Net>)
    requires Valid(net, topology)
    requires 1 <= |topology|
    ensures r.Failure? <==> |inputs| != topology[0]
    ensures r.Success? ==> Valid(r.value, topology)
    ensures r.Success? ==> OnlyOutputsDiffer(net.layers, r.value.layers) && r.value.stats == net.stats
    ensures r.Success? ==> forall i :: 0 <= i < topology[0] ==> r.value.layers[0][i].output == inputs[i]
    ensures r.Success? ==> Evaluated(r.value.layers, topology, tanh)
  {
    if |inputs| != |net.layers[0]| - 1 then Failure(DimensionMismatch)
    else
      var latched := net.layers[0 := Latch(net.layers[0], inputs)];
      LatchKeepsShape(topology, net.layers, inputs);
      var layers := Propagate(topology, latched, 1, tanh);
      PropagateEvaluates(topology, latched, layers, tanh);
      Success(net.(layers := layers))
  }

  lemma LatchKeepsShape(topology: seq<nat>, layers: seq<Layer>, inputs: seq<real>)
    requires Shaped(layers, topology) && BiasPinned(layers)
    requires 1 <= |layers| && |inputs| == |layers[0]| - 1
    ensures var latched := layers[0 := Latch(layers[0], inputs)];
      Shaped(latched, topology) && BiasPinned(latched) && OnlyOutputsDiffer(layers, latched)
  {
  }

  /** After propagation every non-bias neuron past the input layer holds the
      transfer of its weighted input from the final state of the layer before,
      and every bias neuron still holds what it held. */
  lemma PropagateEvaluates(topology: seq<nat>, latched: seq<Layer>, r: seq<Layer>, tanh: real -> real)
    requires Shaped(latched, topology) && Shaped(r, topology) && 1 <= |r|
    requires OnlyOutputsDiffer(latched, r)
    requires r[0] == latched[0]
    requires forall k :: 1 <= k < |latched| ==> r[k] == FeedForwardLayer(latched[k], r[k - 1], tanh)
    ensures Evaluated(r, topology, tanh)
    ensures forall l :: 0 <= l < |r| ==> r[l][|r[l]| - 1] == latched[l][|latched[l]| - 1]
  {
    forall l, n | 1 <= l < |topology| && 0 <= n < topology[l]
      ensures r[l][n].output == tanh(WeightedSum(r[l - 1], n, topology[l - 1] + 1))
    {
      assert latched[l][n].index == n;
      assert r[l][n] == FeedForward(latched[l][n], r[l - 1], tanh);
    }
    forall l | 0 <= l < |r|
      ensures r[l][|r[l]| - 1] == latched[l][|latched[l]| - 1]
    {
      if 1 <= l {
        assert r[l] == FeedForwardLayer(latched[l], r[l - 1], tanh);
      }
    }
  }

  // ---------------------------------------------------------------- results

  /** The outputs of the first `k` neurons of `layer`, pushed in index order. */
  function ResultsUpTo(layer: Layer, k: nat): (r: seq<real>)
    requires k <= |layer|
    ensures |r| == k
    ensures forall i :: 0 <= i < k ==> r[i] == layer[i].output
  {
    if k == 0 then [] else ResultsUpTo(layer, k - 1) + [layer[k - 1].output]
  }

  /** The outputs of the last layer, bias neuron excluded. */
  function Results(net: Net): (r: seq<real>)
    requires 1 <= |net.layers| && 1 <= |net.layers[|net.layers| - 1]|
    ensures var outputLayer := net.layers[|net.layers| - 1];
      |r| == |outputLayer| - 1 && forall n :: 0 <= n < |r| ==> r[n] == outputLayer[n].output
  {
    var outputLayer := net.layers[|net.layers| - 1];
    ResultsUpTo(outputLayer, |outputLayer| - 1)
  }

  // ---------------------------------------------------------------- back-propagation

  /** The first layer the hidden-gradient loop visits: `size() - 2` computed
      without sign and stored in a 32-bit `unsigned`. From two layers on it is
      the next-to-last layer, so a two-layer network skips the loop; below two
      layers it wraps around to a value near 2^32, the loop is entered, and the
      layer it names does not exist. */
  function HiddenStart(numLayers: nat): (r: nat)
    ensures 2 <= numLayers ==> r + 2 == numLayers
    ensures numLayers < 2 ==> 0 < r && numLayers <= r < 0x1_0000_0000
    ensures r + 1 < numLayers <==> 2 <= numLayers
  {
    if numLayers < 2 then 0x1_0000_0000 + numLayers - 2 else numLayers - 2
  }

  /** The sum of squared differences between target and output over the first
      `k` neurons of `layer`. */
  function SquaredError(layer: Layer, targets: seq<real>, k: nat): real
    requires k <= |layer| && k <= |targets|
  {
    if k == 0 then 0.0
    else
      var delta := targets[k - 1] - layer[k - 1].output;
      SquaredError(layer, targets, k - 1) + delta * delta
  }

  /** Root-mean-square error over the non-bias neurons of the output layer. */
  function RmsError(outputLayer: Layer, targets: seq<real>, sqrt: real -> real): real
    requires 2 <= |outputLayer| && |outputLayer| - 1 <= |targets|
  {
    var count := |outputLayer| - 1;
    sqrt(SquaredError(outputLayer, targets, count) / count as real)
  }

  /** Every non-bias neuron of the output layer holds in `after` the gradient
      of its output in `before` against its target. */
  ghost predicate OutputGradientsAt(before: seq<Layer>, after: seq<Layer>, targets: seq<real>) {
    && 1 <= |before| && |after| == |before|
    && (var last := |before| - 1;
        && 1 <= |before[last]| && |after[last]| == |before[last]| && |before[last]| - 1 <= |targets|
        && forall n :: 0 <= n < |before[last]| - 1 ==>
             after[last][n].gradient == (targets[n] - before[last][n].output) * TransferDerivative(before[last][n].output))
  }

  /** The bias neuron of the output layer, which no gradient loop visits,
      holds the same gradient in `after` as in `before`. */
  ghost predicate OutputBiasGradientKept(before: seq<Layer>, after: seq<Layer>) {
    && 1 <= |before| && |after| == |before|
    && (var last := |before| - 1;
        && 1 <= |before[last]| && |after[last]| == |before[last]|
        && after[last][|after[last]| - 1].gradient == before[last][|before[last]| - 1].gradient)
  }

  /** Every neuron of `after`, the bias neuron included, holds the gradient
      computed from its weights and output in `before` and from the gradients
      of the non-bias neurons of `next`. */
  ghost predicate LayerGradientsFrom(before: Layer, after: Layer, next: Layer) {
    && |after| == |before| && 1 <= |next|
    && (forall n :: 0 <= n < |before| ==>
          && |next| - 1 <= |before[n].outputWeights|
          && after[n].gradient ==
               SumDOW(before[n].outputWeights, next, |next| - 1) * TransferDerivative(before[n].output))
  }

  /** Layer `k` of `after` holds the hidden gradients of layer `k` of
      `before`, computed from the gradients that layer `k + 1` holds in
      `after`. */
  ghost predicate HiddenGradientsAt(before: seq<Layer>, after: seq<Layer>, k: nat) {
    && k < |before| && k + 1 < |after|
    && LayerGradientsFrom(before[k], after[k], after[k + 1])
  }

  /** Hidden gradients for layers `l`, `l - 1`, ..., 1, each from the already
      computed gradients of the layer after it. Layer 0 is never touched. */
  function HiddenGradients(ghost topology: seq<nat>, layers: seq<Layer>, l: nat): (r: seq<Layer>)
    requires Shaped(layers, topology)
    requires l + 1 < |layers|
    decreases l
    ensures Shaped(r, topology)
    ensures OnlyGradientsDiffer(layers, r)
    ensures r[0] == layers[0]
    ensures forall k :: l < k < |layers| ==> r[k] == layers[k]
    ensures forall k :: 1 <= k <= l ==> HiddenGradientsAt(layers, r, k)
  {
    if l == 0 then layers
    else
      var next := layers[l := HiddenLayerGradients(layers[l], layers[l + 1])];
      HiddenLayerKeepsShape(topology, layers, l);
      var r := HiddenGradients(topology, next, l - 1);
      OnlyGradientsDifferTransitive(layers, next, r);
      HiddenGradientsStep(layers, l, next, r);
      r
  }

  lemma HiddenLayerKeepsShape(topology: seq<nat>, layers: seq<Layer>, l: nat)
    requires Shaped(layers, topology)
    requires 1 <= l && l + 1 < |layers|
    ensures var next := layers[l := HiddenLayerGradients(layers[l], layers[l + 1])];
      Shaped(next, topology) && OnlyGradientsDiffer(layers, next)
  {
    var next: seq<Layer> := layers[l := HiddenLayerGradients(layers[l], layers[l + 1])];
    assert forall n :: 0 <= n < |layers[l]| ==> next[l][n] == layers[l][n].(gradient := next[l][n].gradient);
  }

  lemma OnlyGradientsDifferTransitive(a: seq<Layer>, b: seq<Layer>, c: seq<Layer>)
    requires OnlyGradientsDiffer(a, b) && OnlyGradientsDiffer(b, c)
    ensures OnlyGradientsDiffer(a, c)
  {
    forall k, n | 0 <= k < |a| && 0 <= n < |a[k]|
      ensures c[k][n] == a[k][n].(gradient := c[k][n].gradient)
    {
      assert b[k][n] == a[k][n].(gradient := b[k][n].gradient);
    }
  }

  lemma HiddenGradientsStep(layers: seq<Layer>, l: nat, next: seq<Layer>, r: seq<Layer>)
    requires 1 <= l && l + 1 < |layers| && |r| == |layers|
    requires 1 <= |layers[l + 1]|
    requires forall n :: 0 <= n < |layers[l]| ==> |layers[l + 1]| - 1 <= |layers[l][n].outputWeights|
    requires next == layers[l := HiddenLayerGradients(layers[l], layers[l + 1])]
    requires forall k :: l - 1 < k < |next| ==> r[k] == next[k]
    requires forall k :: 1 <= k <= l - 1 ==> HiddenGradientsAt(next, r, k)
    ensures forall k :: l < k < |layers| ==> r[k] == layers[k]
    ensures forall k :: 1 <= k <= l ==> HiddenGradientsAt(layers, r, k)
  {
    forall k | 1 <= k <= l
      ensures HiddenGradientsAt(layers, r, k)
    {
      if k == l {
        assert r[l] == next[l] && r[l + 1] == layers[l + 1];
        forall n | 0 <= n < |layers[l]|
          ensures r[l][n] == CalcHiddenGradients(layers[l][n], layers[l + 1])
        {
        }
      } else {
        assert HiddenGradientsAt(next, r, k);
        assert next[k] == layers[k];
      }
    }
  }

  /** Every connection of every neuron of `after` is the momentum update of
      the same connection in `before`, driven by the output of its owner in
      `before` and the gradient of the neuron of `next` it leads to. */
  ghost predicate LayerWeightsUpdated(before: Layer, after: Layer, next: Layer, eta: real, alpha: real) {
    && |after| == |before|
    && (forall n, c :: 0 <= n < |before| && 0 <= c < |before[n].outputWeights| ==>
          && c < |next| && c < |after[n].outputWeights|
          && after[n].outputWeights[c] ==
               Momentum(before[n].outputWeights[c], before[n].output, next[c].gradient, eta, alpha))
  }

  /** Layer `k` of `after` holds the momentum updates of layer `k` of
      `before`, driven by the gradients that layer `k + 1` holds in `after`. */
  ghost predicate WeightsUpdatedAt(before: seq<Layer>, after: seq<Layer>, k: nat, eta: real, alpha: real) {
    && k + 1 < |before| && |after| == |before|
    && LayerWeightsUpdated(before[k], after[k], after[k + 1], eta, alpha)
  }

  /** For layers `l`, `l - 1`, ..., 1, every non-bias neuron updates its incoming
      connections, which live in the layer before it. */
  function UpdateWeights(ghost topology: seq<nat>, layers: seq<Layer>, l: nat, eta: real, alpha: real): (r: seq<Layer>)
    requires Shaped(layers, topology)
    requires l < |layers|
    decreases l
    ensures Shaped(r, topology)
    ensures OnlyWeightsDiffer(layers, r)
    ensures forall k :: l <= k < |layers| ==> r[k] == layers[k]
    ensures forall k :: 0 <= k < l ==> WeightsUpdatedAt(layers, r, k, eta, alpha)
  {
    if l == 0 then layers
    else
      var prev := UpdateLayerWeights(layers[l - 1], layers[l], |layers[l]| - 1, eta, alpha);
      var next := layers[l - 1 := prev];
      UpdateLayerKeepsShape(topology, layers, l, prev, next);
      var r := UpdateWeights(topology, next, l - 1, eta, alpha);
      OnlyWeightsDifferTransitive(layers, next, r);
      UpdateWeightsStep(topology, layers, l, prev, next, r, eta, alpha);
      r
  }

  lemma UpdateLayerKeepsShape(topology: seq<nat>, layers: seq<Layer>, l: nat, prev: Layer, next: seq<Layer>)
    requires Shaped(layers, topology)
    requires 1 <= l < |layers|
    requires |prev| == |layers[l - 1]|
    requires forall j :: 0 <= j < |prev| ==>
      prev[j] == layers[l - 1][j].(outputWeights := prev[j].outputWeights)
      && |prev[j].outputWeights| == |layers[l - 1][j].outputWeights|
    requires next == layers[l - 1 := prev]
    ensures Shaped(next, topology) && OnlyWeightsDiffer(layers, next)
  {
  }

  lemma OnlyWeightsDifferTransitive(a: seq<Layer>, b: seq<Layer>, c: seq<Layer>)
    requires OnlyWeightsDiffer(a, b) && OnlyWeightsDiffer(b, c)
    ensures OnlyWeightsDiffer(a, c)
  {
    forall k, n | 0 <= k < |a| && 0 <= n < |a[k]|
      ensures c[k][n] == a[k][n].(outputWeights := c[k][n].outputWeights)
      ensures |c[k][n].outputWeights| == |a[k][n].outputWeights|
    {
      assert b[k][n] == a[k][n].(outputWeights := b[k][n].outputWeights);
    }
  }

  lemma UpdateWeightsStep(topology: seq<nat>, layers: seq<Layer>, l: nat, prev: Layer, next: seq<Layer>, r: seq<Layer>, eta: real, alpha: real)
    requires Shaped(layers, topology)
    requires 1 <= l < |layers|
    requires prev == UpdateLayerWeights(layers[l - 1], layers[l], |layers[l]| - 1, eta, alpha)
    requires next == layers[l - 1 := prev]
    requires |r| == |layers|
    requires forall k :: l - 1 <= k < |next| ==> r[k] == next[k]
    requires forall k :: 0 <= k < l - 1 ==> WeightsUpdatedAt(next, r, k, eta, alpha)
    ensures forall k :: l <= k < |layers| ==> r[k] == layers[k]
    ensures forall k :: 0 <= k < l ==> WeightsUpdatedAt(layers, r, k, eta, alpha)
  {
    forall k | 0 <= k < l
      ensures WeightsUpdatedAt(layers, r, k, eta, alpha)
    {
      if k == l - 1 {
        assert r[l - 1] == next[l - 1] && r[l] == next[l];
        UpdateWeightsLayer(topology, layers, l, prev, r, eta, alpha);
      } else {
        WeightsUpdatedAtSameLayer(next, layers, r, k, eta, alpha);
      }
    }
  }

  /** `WeightsUpdatedAt` at layer `k` reads nothing of `before` but layer `k`. */
  lemma WeightsUpdatedAtSameLayer(a: seq<Layer>, b: seq<Layer>, r: seq<Layer>, k: nat, eta: real, alpha: real)
    requires |a| == |b| && k < |a| && a[k] == b[k]
    requires WeightsUpdatedAt(a, r, k, eta, alpha)
    ensures WeightsUpdatedAt(b, r, k, eta, alpha)
  {
  }

  lemma UpdateWeightsLayer(topology: seq<nat>, layers: seq<Layer>, l: nat, prev: Layer, r: seq<Layer>, eta: real, alpha: real)
    requires Shaped(layers, topology)
    requires 1 <= l < |layers|
    requires prev == UpdateLayerWeights(layers[l - 1], layers[l], |layers[l]| - 1, eta, alpha)
    requires |r| == |layers| && r[l - 1] == prev && r[l] == layers[l]
    ensures WeightsUpdatedAt(layers, r, l - 1, eta, alpha)
  {
    var before, next := layers[l - 1], layers[l];
    assert |next| == topology[l] + 1;
    forall n | 0 <= n < |before|
      ensures |before[n].outputWeights| == |next| - 1
    {
      assert |layers[l - 1][n].outputWeights| == FanOut(topology, l - 1);
    }
  }

  /** The running average moves toward the newest error with weight
      `1 / (smoothingFactor + 1)`. */
  function SmoothError(stats: ErrorStats, error: real): (r: ErrorStats)
    requires stats.smoothingFactor + 1.0 != 0.0
    ensures r.error == error && r.smoothingFactor == stats.smoothingFactor
    ensures r.recentAverageError * (stats.smoothingFactor + 1.0) ==
      stats.recentAverageError * stats.smoothingFactor + error
  {
    var s := stats.smoothingFactor;
    ErrorStats(error, (stats.recentAverageError * s + error) / (s + 1.0), s)
  }

  /** The output gradients, then the hidden gradients, and only then the
      weights, so every weight update reads gradients that are final. */
  function BackPropLayers(ghost topology: seq<nat>, layers: seq<Layer>, targets: seq<real>, eta: real, alpha: real): (r: seq<Layer>)
    requires Shaped(layers, topology) && BiasPinned(layers)
    requires 2 <= |topology|
    requires topology[|topology| - 1] <= |targets|
    ensures Shaped(r, topology) && BiasPinned(r)
    ensures SameOutputsAndShape(layers, r)
    ensures OutputGradientsAt(layers, r, targets)
    ensures forall l :: 1 <= l < |topology| - 1 ==> HiddenGradientsAt(layers, r, l)
    ensures forall n :: 0 <= n < |layers[0]| ==> r[0][n].gradient == layers[0][n].gradient
    ensures OutputBiasGradientKept(layers, r)
    ensures forall l :: 0 <= l < |topology| - 1 ==> WeightsUpdatedAt(layers, r, l, eta, alpha)
  {
    var numLayers := |layers|;
    var withOutput := layers[numLayers - 1 := OutputGradients(layers[numLayers - 1], targets)];
    OutputGradientsKeepShape(topology, layers, targets);
    var withHidden := HiddenGradients(topology, withOutput, HiddenStart(numLayers));
    var updated := UpdateWeights(topology, withHidden, numLayers - 1, eta, alpha);
    PhasesFrame(topology, layers, targets, eta, alpha, withOutput, withHidden, updated);
    PhasesGradients(topology, layers, targets, eta, alpha, withOutput, withHidden, updated);
    PhasesWeights(topology, layers, targets, eta, alpha, withOutput, withHidden, updated);
    updated
  }

  /** The three phases of `BackPropLayers`, as its body chains them. */
  ghost predicate Phases(topology: seq<nat>, layers: seq<Layer>, targets: seq<real>, eta: real, alpha: real,
                         withOutput: seq<Layer>, withHidden: seq<Layer>, updated: seq<Layer>)
  {
    && Shaped(layers, topology) && BiasPinned(layers) && 2 <= |topology|
    && topology[|topology| - 1] <= |targets|
    && withOutput == layers[|layers| - 1 := OutputGradients(layers[|layers| - 1], targets)]
    && Shaped(withOutput, topology) && OnlyGradientsDiffer(layers, withOutput)
    && withHidden == HiddenGradients(topology, withOutput, HiddenStart(|layers|))
    && updated == UpdateWeights(topology, withHidden, |layers| - 1, eta, alpha)
  }

  lemma PhasesFrame(topology: seq<nat>, layers: seq<Layer>, targets: seq<real>, eta: real, alpha: real,
                    withOutput: seq<Layer>, withHidden: seq<Layer>, updated: seq<Layer>)
    requires Phases(topology, layers, targets, eta, alpha, withOutput, withHidden, updated)
    ensures Shaped(updated, topology) && BiasPinned(updated)
    ensures SameOutputsAndShape(layers, updated)
  {
    BackPropFrame(topology, layers, withOutput, withHidden, updated);
  }

  lemma PhasesGradients(topology: seq<nat>, layers: seq<Layer>, targets: seq<real>, eta: real, alpha: real,
                        withOutput: seq<Layer>, withHidden: seq<Layer>, updated: seq<Layer>)
    requires Phases(topology, layers, targets, eta, alpha, withOutput, withHidden, updated)
    ensures OutputGradientsAt(layers, updated, targets)
    ensures forall l :: 1 <= l < |topology| - 1 ==> HiddenGradientsAt(layers, updated, l)
    ensures forall n :: 0 <= n < |layers[0]| ==> updated[0][n].gradient == layers[0][n].gradient
    ensures OutputBiasGradientKept(layers, updated)
  {
    BackPropGradients(topology, layers, targets, withOutput, withHidden, updated);
  }

  lemma PhasesWeights(topology: seq<nat>, layers: seq<Layer>, targets: seq<real>, eta: real, alpha: real,
                      withOutput: seq<Layer>, withHidden: seq<Layer>, updated: seq<Layer>)
    requires Phases(topology, layers, targets, eta, alpha, withOutput, withHidden, updated)
    ensures forall l :: 0 <= l < |topology| - 1 ==> WeightsUpdatedAt(layers, updated, l, eta, alpha)
  {
    OnlyGradientsDifferTransitive(layers, withOutput, withHidden);
    BackPropWeights(topology, layers, withHidden, updated, eta, alpha);
  }

  /** The error statistics are computed from the outputs before any gradient
      or weight changes. The source reads `targets[n]` unchecked, so at least
      one target per output neuron is required; it divides by the number of
      output neurons and by `smoothingFactor + 1`. */
  function BackProp(net: Net, ghost topology: seq<nat>, targets: seq<real>, eta: real, alpha: real, sqrt: real -> real): (r: Net)
    requires Valid(net, topology)
    requires 2 <= |topology|
    requires 1 <= topology[|topology| - 1] <= |targets|
    requires net.stats.smoothingFactor + 1.0 != 0.0
    ensures Valid(r, topology)
    ensures var last := |topology| - 1;
      r.stats.error == sqrt(SquaredError(net.layers[last], targets, topology[last]) / topology[last] as real)
    ensures r.stats == SmoothError(net.stats, r.stats.error)
    ensures r.layers == BackPropLayers(topology, net.layers, targets, eta, alpha)
  {
    var outputLayer := net.layers[|net.layers| - 1];
    ghost var count := topology[|topology| - 1];
    assert |outputLayer| - 1 == count;
    var error := RmsError(outputLayer, targets, sqrt);
    assert error == sqrt(SquaredError(outputLayer, targets, count) / count as real);
    Net(BackPropLayers(topology, net.layers, targets, eta, alpha), SmoothError(net.stats, error))
  }

  lemma OutputGradientsKeepShape(topology: seq<nat>, layers: seq<Layer>, targets: seq<real>)
    requires Shaped(layers, topology) && 1 <= |layers|
    requires |layers[|layers| - 1]| - 1 <= |targets|
    ensures var last := |layers| - 1;
      var withOutput := layers[last := OutputGradients(layers[last], targets)];
      Shaped(withOutput, topology) && OnlyGradientsDiffer(layers, withOutput)
  {
    var last := |layers| - 1;
    var withOutput: seq<Layer> := layers[last := OutputGradients(layers[last], targets)];
    assert forall n :: 0 <= n < |layers[last]| ==> withOutput[last][n] == layers[last][n].(gradient := withOutput[last][n].gradient);
  }

  /** Back-propagation changes no output, index or connection count. */
  lemma BackPropFrame(topology: seq<nat>, layers: seq<Layer>, withOutput: seq<Layer>, withHidden: seq<Layer>, updated: seq<Layer>)
    requires Shaped(layers, topology) && BiasPinned(layers)
    requires OnlyGradientsDiffer(layers, withOutput)
    requires OnlyGradientsDiffer(withOutput, withHidden)
    requires OnlyWeightsDiffer(withHidden, updated)
    requires Shaped(updated, topology)
    ensures BiasPinned(updated)
    ensures SameOutputsAndShape(layers, updated)
  {
    OnlyGradientsDifferTransitive(layers, withOutput, withHidden);
    forall k, n | 0 <= k < |layers| && 0 <= n < |layers[k]|
      ensures updated[k][n].output == layers[k][n].output
      ensures updated[k][n].index == layers[k][n].index
      ensures |updated[k][n].outputWeights| == |layers[k][n].outputWeights|
    {
      assert withHidden[k][n] == layers[k][n].(gradient := withHidden[k][n].gradient);
      assert updated[k][n] == withHidden[k][n].(outputWeights := updated[k][n].outputWeights);
    }
  }

  lemma BackPropGradients(topology: seq<nat>, layers: seq<Layer>, targets: seq<real>,
                          withOutput: seq<Layer>, withHidden: seq<Layer>, updated: seq<Layer>)
    requires Shaped(layers, topology) && 2 <= |layers|
    requires |layers[|layers| - 1]| - 1 <= |targets|
    requires withOutput == layers[|layers| - 1 := OutputGradients(layers[|layers| - 1], targets)]
    requires Shaped(withOutput, topology) && Shaped(withHidden, topology) && Shaped(updated, topology)
    requires withHidden[0] == withOutput[0]
    requires forall k :: |layers| - 2 < k < |layers| ==> withHidden[k] == withOutput[k]
    requires forall k :: 1 <= k <= |layers| - 2 ==> HiddenGradientsAt(withOutput, withHidden, k)
    requires OnlyWeightsDiffer(withHidden, updated)
    ensures OutputGradientsAt(layers, updated, targets)
    ensures forall l :: 1 <= l < |topology| - 1 ==> HiddenGradientsAt(layers, updated, l)
    ensures forall n :: 0 <= n < |layers[0]| ==> updated[0][n].gradient == layers[0][n].gradient
    ensures OutputBiasGradientKept(layers, updated)
  {
    var last := |layers| - 1;
    assert withHidden[last] == withOutput[last];
    WeightUpdatesKeepGradients(withHidden, updated);
    forall n | 0 <= n < topology[last]
      ensures updated[last][n].gradient ==
        (targets[n] - layers[last][n].output) * TransferDerivative(layers[last][n].output)
    {
      assert withOutput[last][n] == CalcOutputGradients(layers[last][n], targets[n]);
    }
    forall l | 1 <= l < |topology| - 1
      ensures HiddenGradientsAt(layers, updated, l)
    {
      assert withOutput[l] == layers[l];
      HiddenGradientsSurvive(layers[l], withOutput, withHidden, updated, l);
    }
  }

  /** `a` and `b` have the same length and the same gradient at every position. */
  ghost predicate SameGradients(a: Layer, b: Layer) {
    |b| == |a| && forall n :: 0 <= n < |a| ==> b[n].gradient == a[n].gradient
  }

  /** Updating weights leaves every gradient as it was. */
  lemma WeightUpdatesKeepGradients(before: seq<Layer>, after: seq<Layer>)
    requires OnlyWeightsDiffer(before, after)
    ensures forall k, n :: 0 <= k < |before| && 0 <= n < |before[k]| ==> after[k][n].gradient == before[k][n].gradient
  {
    forall k, n | 0 <= k < |before| && 0 <= n < |before[k]|
      ensures after[k][n].gradient == before[k][n].gradient
    {
      assert after[k][n] == before[k][n].(outputWeights := after[k][n].outputWeights);
    }
  }

  /** A hidden layer's gradients, computed in `withHidden` from layer `l` of
      `withOutput`, still satisfy their equation once weights are updated. */
  lemma HiddenGradientsSurvive(layer: Layer, withOutput: seq<Layer>, withHidden: seq<Layer>, updated: seq<Layer>, l: nat)
    requires l + 1 < |withOutput| && withOutput[l] == layer
    requires HiddenGradientsAt(withOutput, withHidden, l)
    requires |updated| == |withHidden|
    requires SameGradients(withHidden[l], updated[l]) && SameGradients(withHidden[l + 1], updated[l + 1])
    ensures LayerGradientsFrom(layer, updated[l], updated[l + 1])
  {
    assert LayerGradientsFrom(layer, withHidden[l], withHidden[l + 1]);
    forall n | 0 <= n < |layer|
      ensures updated[l][n].gradient ==
        SumDOW(layer[n].outputWeights, updated[l + 1], |updated[l + 1]| - 1) * TransferDerivative(layer[n].output)
    {
      SumDOWReadsGradients(layer[n].outputWeights, withHidden[l + 1], updated[l + 1], |updated[l + 1]| - 1);
    }
  }

  lemma BackPropWeights(topology: seq<nat>, layers: seq<Layer>, withHidden: seq<Layer>, updated: seq<Layer>, eta: real, alpha: real)
    requires Shaped(layers, topology) && 2 <= |layers|
    requires Shaped(withHidden, topology) && Shaped(updated, topology)
    requires OnlyGradientsDiffer(layers, withHidden)
    requires forall k :: 0 <= k < |layers| - 1 ==> WeightsUpdatedAt(withHidden, updated, k, eta, alpha)
    ensures forall l :: 0 <= l < |topology| - 1 ==> WeightsUpdatedAt(layers, updated, l, eta, alpha)
  {
    forall l | 0 <= l < |topology| - 1
      ensures WeightsUpdatedAt(layers, updated, l, eta, alpha)
    {
      assert WeightsUpdatedAt(withHidden, updated, l, eta, alpha);
      forall n | 0 <= n < |layers[l]|
        ensures withHidden[l][n] == layers[l][n].(gradient := withHidden[l][n].gradient)
      {
      }
    }
  }
}
