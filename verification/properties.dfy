/** Properties that relate several operations of the tutorial network: what
    the caller reads back after a forward pass, what training leaves alone,
    and how the error and the gradients behave when the network already
    fits its targets. */
module NetworkProperties {
  import opened Neurons
  import opened Network

  // ---------------------------------------------------------------- shape

  /** Only the non-bias neurons of a layer own a connection in the layer
      before it: the bias neuron of layer `l` has no incoming weight, which is
      why the forward pass must skip it. */
  lemma BiasNeverFed(net: Net, topology: seq<nat>, l: nat, n: nat)
    requires Valid(net, topology)
    requires 1 <= l < |topology| && n < |net.layers[l]|
    ensures Reaches(net.layers[l - 1], n) <==> n < topology[l]
  {
    assert |net.layers[l - 1]| == topology[l - 1] + 1;
    var bias := net.layers[l - 1][topology[l - 1]];
    assert |bias.outputWeights| == topology[l];
  }

  // ---------------------------------------------------------------- results

  /** What the caller reads back from a network whose outputs a forward pass
      on `inputs` set: one value per output neuron, the transfer of its
      weighted input or, for a network that is only an input layer, the
      inputs themselves. */
  ghost predicate ReadsBack(fed: Net, topology: seq<nat>, inputs: seq<real>, tanh: real -> real)
    requires Valid(fed, topology) && 1 <= |topology|
  {
    var last := |topology| - 1;
    var results := Results(fed);
    && |results| == topology[last]
    && (last == 0 ==> results == inputs)
    && (1 <= last ==> forall n :: 0 <= n < |results| ==>
          results[n] == tanh(WeightedSum(fed.layers[last - 1], n, topology[last - 1] + 1)))
  }

  /** A forward pass on inputs of the right width succeeds, and the results
      read back afterwards are those `ReadsBack` describes. */
  lemma ResultsAfterForward(net: Net, topology: seq<nat>, inputs: seq<real>, tanh: real -> real)
    requires Valid(net, topology) && 1 <= |topology|
    requires |inputs| == topology[0]
    ensures var r := Forward(net, topology, inputs, tanh);
      r.Success? && ReadsBack(r.value, topology, inputs, tanh)
  {
    var fed := Forward(net, topology, inputs, tanh).value;
    ResultsOfFedNet(fed, topology, inputs, tanh);
  }

  /** The reading of `ResultsAfterForward`, for any valid network whose
      outputs are those a forward pass leaves. */
  lemma ResultsOfFedNet(fed: Net, topology: seq<nat>, inputs: seq<real>, tanh: real -> real)
    requires Valid(fed, topology) && 1 <= |topology|
    requires |inputs| == topology[0]
    requires forall i :: 0 <= i < topology[0] ==> fed.layers[0][i].output == inputs[i]
    requires Evaluated(fed.layers, topology, tanh)
    ensures ReadsBack(fed, topology, inputs, tanh)
  {
    var last := |topology| - 1;
    var results := Results(fed);
    assert |fed.layers[last]| == topology[last] + 1;
    if last == 0 {
      forall n | 0 <= n < |results|
        ensures results[n] == inputs[n]
      {
        assert results[n] == fed.layers[0][n].output;
      }
    } else {
      forall n | 0 <= n < |results|
        ensures results[n] == tanh(WeightedSum(fed.layers[last - 1], n, topology[last - 1] + 1))
      {
        assert results[n] == fed.layers[last][n].output;
      }
    }
  }

  /** The outputs left by the previous pass are overwritten: two networks
      that differ only in neuron outputs give the same network after a
      forward pass on the same inputs. */
  lemma ForwardForgetsOutputs(a: Net, b: Net, topology: seq<nat>, inputs: seq<real>, tanh: real -> real)
    requires Valid(a, topology) && Valid(b, topology) && 1 <= |topology|
    requires OnlyOutputsDiffer(a.layers, b.layers) && a.stats == b.stats
    requires |inputs| == topology[0]
    ensures Forward(a, topology, inputs, tanh) == Forward(b, topology, inputs, tanh)
  {
    var fa := Forward(a, topology, inputs, tanh).value;
    var fb := Forward(b, topology, inputs, tanh).value;
    OnlyOutputsDifferSymmetric(a.layers, fa.layers);
    OnlyOutputsDifferTransitive(fa.layers, a.layers, b.layers);
    OnlyOutputsDifferTransitive(fa.layers, b.layers, fb.layers);
    FedLayersAgree(fa, fb, topology, inputs, tanh, |topology| - 1);
    assert fa.layers == fb.layers;
  }

  /** The induction behind `ForwardForgetsOutputs`, for two valid networks
      that differ only in outputs and whose outputs are those a forward pass
      on `inputs` leaves: layers `0 .. l` agree. */
  lemma {:induction false} FedLayersAgree(fa: Net, fb: Net, topology: seq<nat>, inputs: seq<real>, tanh: real -> real, l: nat)
    requires Valid(fa, topology) && Valid(fb, topology) && 1 <= |topology|
    requires OnlyOutputsDiffer(fa.layers, fb.layers)
    requires |inputs| == topology[0]
    requires forall i :: 0 <= i < topology[0] ==> fa.layers[0][i].output == inputs[i] && fb.layers[0][i].output == inputs[i]
    requires Evaluated(fa.layers, topology, tanh) && Evaluated(fb.layers, topology, tanh)
    requires l < |topology|
    ensures forall k :: 0 <= k <= l ==> fa.layers[k] == fb.layers[k]
  {
    if 1 <= l {
      FedLayersAgree(fa, fb, topology, inputs, tanh, l - 1);
    }
    forall n | 0 <= n < |fa.layers[l]|
      ensures fa.layers[l][n] == fb.layers[l][n]
    {
      assert fb.layers[l][n] == fa.layers[l][n].(output := fb.layers[l][n].output);
      if n == topology[l] {
        assert fa.layers[l][n].output == 1.0 == fb.layers[l][n].output;
      } else if l == 0 {
        assert fa.layers[0][n].output == inputs[n] == fb.layers[0][n].output;
      } else {
        assert fa.layers[l - 1] == fb.layers[l - 1];
      }
    }
  }

  lemma OnlyOutputsDifferSymmetric(a: seq<Layer>, b: seq<Layer>)
    requires OnlyOutputsDiffer(a, b)
    ensures OnlyOutputsDiffer(b, a)
  {
    forall l, n | 0 <= l < |b| && 0 <= n < |b[l]|
      ensures a[l][n] == b[l][n].(output := a[l][n].output)
    {
      assert b[l][n] == a[l][n].(output := b[l][n].output);
    }
  }

  lemma OnlyOutputsDifferTransitive(a: seq<Layer>, b: seq<Layer>, c: seq<Layer>)
    requires OnlyOutputsDiffer(a, b) && OnlyOutputsDiffer(b, c)
    ensures OnlyOutputsDiffer(a, c)
  {
    forall l, n | 0 <= l < |a| && 0 <= n < |a[l]|
      ensures c[l][n] == a[l][n].(output := c[l][n].output)
    {
      assert b[l][n] == a[l][n].(output := b[l][n].output);
    }
  }

  /** Training changes gradients and weights but no output, so the results a
      caller reads are the same before and after back-propagation. */
  lemma BackPropKeepsResults(net: Net, topology: seq<nat>, targets: seq<real>, eta: real, alpha: real, sqrt: real -> real)
    requires Valid(net, topology)
    requires 2 <= |topology|
    requires 1 <= topology[|topology| - 1] <= |targets|
    requires net.stats.smoothingFactor + 1.0 != 0.0
    ensures Results(BackProp(net, topology, targets, eta, alpha, sqrt)) == Results(net)
  {
    var trained := BackProp(net, topology, targets, eta, alpha, sqrt);
    ResultsReadOutputs(net, trained);
  }

  /** Results depend only on the outputs of the last layer. */
  lemma ResultsReadOutputs(a: Net, b: Net)
    requires 1 <= |a.layers| && 1 <= |a.layers[|a.layers| - 1]|
    requires SameOutputsAndShape(a.layers, b.layers)
    ensures Results(a) == Results(b)
  {
    var last := |a.layers| - 1;
    var before := Results(a);
    var after := Results(b);
    assert |after| == |before|;
    forall n | 0 <= n < |before|
      ensures after[n] == before[n]
    {
      assert b.layers[last][n].output == a.layers[last][n].output;
    }
  }

  // ---------------------------------------------------------------- error

  /** With a non-negative smoothing factor the running average moves from
      its old value toward the newest error and never past it. */
  lemma SmoothErrorBetween(stats: ErrorStats, error: real)
    requires 0.0 <= stats.smoothingFactor
    ensures var average := SmoothError(stats, error).recentAverageError;
      var previous := stats.recentAverageError;
      && (previous <= error ==> previous <= average <= error)
      && (error <= previous ==> error <= average <= previous)
  {
    var s := stats.smoothingFactor;
    var previous := stats.recentAverageError;
    var average := SmoothError(stats, error).recentAverageError;
    var t := s + 1.0;
    assert average * t == previous * s + error;
    assert (average - previous) * t == error - previous;
    assert (error - average) * t == (error - previous) * s;
    SignOfQuotient(average - previous, t, error - previous);
    SignOfQuotient(error - average, t, (error - previous) * s);
    if previous <= error {
      NonNegativeProduct(error - previous, s);
    } else {
      NonNegativeProduct(previous - error, s);
      assert (error - previous) * s == -((previous - error) * s);
    }
  }

  /** `x * t == y` with `t` positive: `x` has the sign of `y`. */
  lemma SignOfQuotient(x: real, t: real, y: real)
    requires 0.0 < t && x * t == y
    ensures (0.0 <= y ==> 0.0 <= x) && (y <= 0.0 ==> x <= 0.0)
  {
    if x < 0.0 {
      PositiveProduct(-x, t);
      assert (-x) * t == -y;
    } else if 0.0 < x {
      PositiveProduct(x, t);
    }
  }

  lemma NonNegativeProduct(a: real, b: real)
    requires 0.0 <= a && 0.0 <= b
    ensures 0.0 <= a * b
  {
    if 0.0 < a && 0.0 < b {
      PositiveProduct(a, b);
    } else if a == 0.0 {
      ZeroProduct(a, b);
    } else {
      assert a * b == b * a;
      ZeroProduct(b, a);
    }
  }

  /** A steady error is a fixed point of the running average. */
  lemma SmoothErrorSteady(stats: ErrorStats)
    requires stats.smoothingFactor + 1.0 != 0.0
    ensures SmoothError(stats, stats.recentAverageError).recentAverageError == stats.recentAverageError
  {
    var s := stats.smoothingFactor;
    var previous := stats.recentAverageError;
    var average := SmoothError(stats, previous).recentAverageError;
    assert (average - previous) * (s + 1.0) == 0.0;
    ProductZeroIff(average - previous, s + 1.0);
  }

  lemma {:induction false} SquaredErrorNonNegative(layer: Layer, targets: seq<real>, k: nat)
    requires k <= |layer| && k <= |targets|
    ensures 0.0 <= SquaredError(layer, targets, k)
  {
    if 0 < k {
      SquaredErrorNonNegative(layer, targets, k - 1);
    }
  }

  /** The summed error vanishes exactly when every one of the first `k`
      outputs equals its target. */
  lemma {:induction false} SquaredErrorZeroIff(layer: Layer, targets: seq<real>, k: nat)
    requires k <= |layer| && k <= |targets|
    ensures SquaredError(layer, targets, k) == 0.0 <==>
      forall n :: 0 <= n < k ==> layer[n].output == targets[n]
  {
    if 0 < k {
      SquaredErrorZeroIff(layer, targets, k - 1);
      SquaredErrorNonNegative(layer, targets, k - 1);
      var delta := targets[k - 1] - layer[k - 1].output;
      AddSquare(SquaredError(layer, targets, k - 1), delta, delta, SquaredError(layer, targets, k));
    }
  }

  /** Adding the product of two equal values `x` and `y` to a non-negative
      `a` gives zero exactly when both `a` and `x` are zero. The square is
      written as a product of two names because the solver does not carry
      facts about `x * x` from one equation to another. */
  lemma AddSquare(a: real, x: real, y: real, sum: real)
    requires x <= y && y <= x
    requires sum == a + x * y && 0.0 <= a
    ensures sum == 0.0 <==> a == 0.0 && x == 0.0
  {
    if x < 0.0 {
      PositiveProduct(-x, -y);
      assert x * y == (-x) * (-y);
    } else if 0.0 < x {
      PositiveProduct(x, y);
    } else {
      ZeroProduct(x, y);
    }
  }

  lemma PositiveProduct(a: real, b: real)
    requires 0.0 < a && 0.0 < b
    ensures 0.0 < a * b
  {
  }

  lemma ZeroProduct(a: real, b: real)
    requires a == 0.0
    ensures a * b == 0.0
  {
  }

  // ---------------------------------------------------------------- perfect fit

  /** Every non-bias neuron of the output layer outputs exactly its target. */
  ghost predicate OnTarget(output: Layer, targets: seq<real>) {
    && 1 <= |output| && |output| - 1 <= |targets|
    && forall n :: 0 <= n < |output| - 1 ==> output[n].output == targets[n]
  }

  /** Output gradients computed from outputs that hit their targets are zero. */
  lemma OnTargetZeroGradients(layers: seq<Layer>, trained: seq<Layer>, targets: seq<real>)
    requires OutputGradientsAt(layers, trained, targets)
    requires OnTarget(layers[|layers| - 1], targets)
    ensures var last := |layers| - 1;
      forall n :: 0 <= n < |layers[last]| - 1 ==> trained[last][n].gradient == 0.0
  {
    var last := |layers| - 1;
    var output := layers[last];
    forall n | 0 <= n < |output| - 1
      ensures trained[last][n].gradient == 0.0
    {
      assert trained[last][n].gradient == CalcOutputGradients(output[n], targets[n]).gradient;
    }
  }

  /** Zero gradients in the output layer propagate towards the inputs: every
      hidden gradient is built from the gradients of the layer after it, so
      layers `l .. last` carry zero gradients on their non-bias neurons. */
  lemma {:induction false} ZeroGradientsPropagate(layers: seq<Layer>, topology: seq<nat>, r: seq<Layer>, output: Layer, l: nat)
    requires 2 <= |topology| && 1 <= l < |topology|
    requires Shaped(r, topology)
    requires output == r[|topology| - 1]
    requires forall n :: 0 <= n < topology[|topology| - 1] ==> output[n].gradient == 0.0
    requires forall k :: 1 <= k < |topology| - 1 ==> HiddenGradientsAt(layers, r, k)
    ensures forall k, n :: l <= k < |topology| && 0 <= n < topology[k] ==> r[k][n].gradient == 0.0
    decreases |topology| - l
  {
    if l < |topology| - 1 {
      ZeroGradientsPropagate(layers, topology, r, output, l + 1);
      assert HiddenGradientsAt(layers, r, l);
      assert |r[l + 1]| - 1 == topology[l + 1];
      forall n | 0 <= n < topology[l]
        ensures r[l][n].gradient == 0.0
      {
        SumDOWOfZeroGradients(layers[l][n].outputWeights, r[l + 1], |r[l + 1]| - 1);
      }
    }
  }

  /** A weight update driven by zero downstream gradients is pure momentum. */
  lemma ZeroGradientsOnlyMomentum(before: seq<Layer>, after: seq<Layer>, next: Layer, l: nat, width: nat, eta: real, alpha: real)
    requires WeightsUpdatedAt(before, after, l, eta, alpha)
    requires next == after[l + 1]
    requires forall n :: 0 <= n < |before[l]| ==> |before[l][n].outputWeights| == width
    requires forall n :: 0 <= n < |after[l]| ==> |after[l][n].outputWeights| == width
    requires width <= |next|
    requires forall c :: 0 <= c < width ==> next[c].gradient == 0.0
    ensures forall n, c :: 0 <= n < |before[l]| && 0 <= c < width ==>
      after[l][n].outputWeights[c].deltaWeight == alpha * before[l][n].outputWeights[c].deltaWeight
  {
    assert LayerWeightsUpdated(before[l], after[l], next, eta, alpha);
    forall n, c | 0 <= n < |before[l]| && 0 <= c < width
      ensures after[l][n].outputWeights[c].deltaWeight == alpha * before[l][n].outputWeights[c].deltaWeight
    {
      var updated := after[l][n].outputWeights[c];
      var layer := before[l];
      assert c < |layer[n].outputWeights|;
      assert updated == Momentum(layer[n].outputWeights[c], layer[n].output, next[c].gradient, eta, alpha);
      assert next[c].gradient == 0.0;
      assert eta * before[l][n].output * 0.0 == 0.0;
    }
  }

  /** A network that already reproduces its targets has zero RMS error. */
  lemma PerfectFitZeroError(net: Net, topology: seq<nat>, targets: seq<real>, eta: real, alpha: real, sqrt: real -> real)
    requires Valid(net, topology)
    requires 2 <= |topology|
    requires 1 <= topology[|topology| - 1] <= |targets|
    requires net.stats.smoothingFactor + 1.0 != 0.0
    requires OnTarget(net.layers[|net.layers| - 1], targets)
    ensures BackProp(net, topology, targets, eta, alpha, sqrt).stats.error == sqrt(0.0)
  {
    var last := |topology| - 1;
    var count := topology[last];
    SquaredErrorZeroIff(net.layers[last], targets, count);
    assert SquaredError(net.layers[last], targets, count) / count as real == 0.0;
  }

  /** Every connection out of layer `l` changed by momentum alone: its new
      weight change is `alpha` times the previous one. */
  ghost predicate MomentumOnlyAt(before: seq<Layer>, after: seq<Layer>, l: nat, alpha: real) {
    && l < |before| && l < |after| && |after[l]| == |before[l]|
    && forall n, c :: 0 <= n < |before[l]| && 0 <= c < |before[l][n].outputWeights| ==>
         c < |after[l][n].outputWeights| &&
         after[l][n].outputWeights[c].deltaWeight == alpha * before[l][n].outputWeights[c].deltaWeight
  }

  /** Training a network that already reproduces its targets (by
      `SquaredErrorZeroIff`, one whose summed error is zero) moves each weight
      only by momentum, whatever the training rate. */
  lemma PerfectFitOnlyMomentum(net: Net, topology: seq<nat>, targets: seq<real>, eta: real, alpha: real)
    requires Valid(net, topology)
    requires 2 <= |topology|
    requires topology[|topology| - 1] <= |targets|
    requires OnTarget(net.layers[|net.layers| - 1], targets)
    ensures forall l :: 0 <= l < |topology| - 1 ==>
      MomentumOnlyAt(net.layers, BackPropLayers(topology, net.layers, targets, eta, alpha), l, alpha)
  {
    var trained := BackPropLayers(topology, net.layers, targets, eta, alpha);
    OnTargetOnlyMomentum(topology, net.layers, trained, targets, eta, alpha);
  }

  /** `PerfectFitOnlyMomentum` stated over any layers that satisfy what
      back-propagation promises. */
  lemma OnTargetOnlyMomentum(topology: seq<nat>, layers: seq<Layer>, trained: seq<Layer>, targets: seq<real>, eta: real, alpha: real)
    requires 2 <= |topology|
    requires Shaped(layers, topology) && Shaped(trained, topology)
    requires OutputGradientsAt(layers, trained, targets)
    requires forall l :: 1 <= l < |topology| - 1 ==> HiddenGradientsAt(layers, trained, l)
    requires forall l :: 0 <= l < |topology| - 1 ==> WeightsUpdatedAt(layers, trained, l, eta, alpha)
    requires OnTarget(layers[|layers| - 1], targets)
    ensures forall l :: 0 <= l < |topology| - 1 ==> MomentumOnlyAt(layers, trained, l, alpha)
  {
    var last := |topology| - 1;
    OnTargetZeroGradients(layers, trained, targets);
    ZeroGradientsPropagate(layers, topology, trained, trained[last], 1);
    forall l | 0 <= l < |topology| - 1
      ensures MomentumOnlyAt(layers, trained, l, alpha)
    {
      ZeroGradientsOnlyMomentum(layers, trained, trained[l + 1], l, topology[l + 1], eta, alpha);
    }
  }
}
