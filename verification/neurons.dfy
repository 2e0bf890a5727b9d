/** Connections, neurons and the neuron-level steps of the tutorial network.

    Doubles are modelled as `real`; the transfer function `tanh` is a parameter
    that the model never looks inside, so every statement here holds for any
    transfer function. A `Layer` is a sequence of neurons whose last element is
    the bias neuron. */
module Neurons {

  /** One outgoing edge, owned by the upstream neuron: its weight and the last
      change applied to it (kept for momentum). */
  datatype Connection = Connection(weight: real, deltaWeight: real)

  /** `index` is the neuron's position in its layer; `outputWeights[c]` is the
      connection to neuron `c` of the next layer. */
  datatype Neuron = Neuron(output: real, gradient: real, index: nat, outputWeights: seq<Connection>)

  type Layer = seq<Neuron>

  /** Every neuron of `prev` owns a connection numbered `idx`, so reading
      `prev[j].outputWeights[idx]` is in bounds for every `j`. */
  predicate Reaches(prev: Layer, idx: nat) {
    forall j :: 0 <= j < |prev| ==> idx < |prev[j].outputWeights|
  }

  /** Each neuron of the layer sits at the position its index names. */
  predicate IndexedByPosition(layer: Layer) {
    forall n :: 0 <= n < |layer| ==> layer[n].index == n
  }

  /** Derivative of tanh written in terms of its output `y == tanh(x)`. */
  function TransferDerivative(y: real): real {
    1.0 - y * y
  }

  /** An output at either end of tanh's range. */
  predicate Saturated(y: real) {
    y == 1.0 || y == -1.0
  }

  /** The derivative vanishes exactly at the ends of tanh's range. */
  lemma TransferDerivativeZeroIff(y: real)
    ensures TransferDerivative(y) == 0.0 <==> Saturated(y)
  {
    var d := 1.0 - y;
    var s := 1.0 + y;
    assert TransferDerivative(y) == d * s;
    ProductZeroIff(d, s);
  }

  lemma ProductZeroIff(a: real, b: real)
    ensures a * b == 0.0 <==> a == 0.0 || b == 0.0
  {
  }

  /** The weighted input of the neuron numbered `idx`: the sum, left to right
      over the first `k` neurons of `prev`, of output times connection weight. */
  function WeightedSum(prev: Layer, idx: nat, k: nat): real
    requires k <= |prev|
    requires Reaches(prev, idx)
  {
    if k == 0 then 0.0
    else WeightedSum(prev, idx, k - 1) + prev[k - 1].output * prev[k - 1].outputWeights[idx].weight
  }

  /** The sum of connection weight times downstream gradient over the first `k`
      neurons of `next`. */
  function SumDOW(weights: seq<Connection>, next: Layer, k: nat): real
    requires k <= |next| && k <= |weights|
  {
    if k == 0 then 0.0
    else SumDOW(weights, next, k - 1) + weights[k - 1].weight * next[k - 1].gradient
  }

  /** `SumDOW` reads only the gradients of the next layer. */
  lemma {:induction false} SumDOWReadsGradients(weights: seq<Connection>, a: Layer, b: Layer, k: nat)
    requires k <= |a| && k <= |b| && k <= |weights|
    requires forall j :: 0 <= j < k ==> a[j].gradient == b[j].gradient
    ensures SumDOW(weights, a, k) == SumDOW(weights, b, k)
  {
    if k > 0 {
      SumDOWReadsGradients(weights, a, b, k - 1);
    }
  }

  /** `SumDOW` over a next layer whose gradients are zero is zero. */
  lemma {:induction false} SumDOWOfZeroGradients(weights: seq<Connection>, next: Layer, k: nat)
    requires k <= |next| && k <= |weights|
    requires forall j :: 0 <= j < k ==> next[j].gradient == 0.0
    ensures SumDOW(weights, next, k) == 0.0
  {
    if 0 < k {
      SumDOWOfZeroGradients(weights, next, k - 1);
    }
  }

  /** Evaluate one neuron from the whole previous layer, bias included. */
  function FeedForward(n: Neuron, prev: Layer, tanh: real -> real): (r: Neuron)
    requires Reaches(prev, n.index)
    ensures r == n.(output := r.output)
  {
    n.(output := tanh(WeightedSum(prev, n.index, |prev|)))
  }

  /** The gradient vanishes exactly when the output hits its target or the
      neuron is saturated (its output is 1 or -1). */
  function CalcOutputGradients(n: Neuron, target: real): (r: Neuron)
    ensures r == n.(gradient := r.gradient)
    ensures r.gradient == 0.0 <==> n.output == target || Saturated(n.output)
  {
    var delta := target - n.output;
    ProductZeroIff(delta, TransferDerivative(n.output));
    TransferDerivativeZeroIff(n.output);
    n.(gradient := delta * TransferDerivative(n.output))
  }

  /** The loop in the source runs over all but the bias neuron of `next`, so it
      needs `next` non-empty and one connection per non-bias neuron. */
  function CalcHiddenGradients(n: Neuron, next: Layer): (r: Neuron)
    requires 1 <= |next| && |next| - 1 <= |n.outputWeights|
    ensures r == n.(gradient := r.gradient)
    ensures Saturated(n.output) ==> r.gradient == 0.0
  {
    var dow := SumDOW(n.outputWeights, next, |next| - 1);
    ProductZeroIff(dow, TransferDerivative(n.output));
    TransferDerivativeZeroIff(n.output);
    n.(gradient := dow * TransferDerivative(n.output))
  }

  /** The momentum rule applied to one connection whose upstream neuron has
      output `output` and whose downstream neuron has gradient `gradient`. */
  function Momentum(c: Connection, output: real, gradient: real, eta: real, alpha: real): (r: Connection)
    ensures r.weight == c.weight + r.deltaWeight
    ensures r.deltaWeight - alpha * c.deltaWeight == eta * output * gradient
  {
    var newDeltaWeight := eta * output * gradient + alpha * c.deltaWeight;
    Connection(c.weight + newDeltaWeight, newDeltaWeight)
  }

  /** `n` looks back at `prev` and updates, in every neuron of `prev`, the one
      connection that leads to `n`. */
  function UpdateInputWeights(n: Neuron, prev: Layer, eta: real, alpha: real): (r: Layer)
    requires Reaches(prev, n.index)
    ensures |r| == |prev|
    ensures forall j :: 0 <= j < |prev| ==>
      r[j] == prev[j].(outputWeights := r[j].outputWeights) && |r[j].outputWeights| == |prev[j].outputWeights|
    ensures forall j, c :: 0 <= j < |prev| && 0 <= c < |prev[j].outputWeights| && c != n.index ==>
      r[j].outputWeights[c] == prev[j].outputWeights[c]
    ensures forall j :: 0 <= j < |prev| ==>
      r[j].outputWeights[n.index] == Momentum(prev[j].outputWeights[n.index], prev[j].output, n.gradient, eta, alpha)
  {
    seq(|prev|, j requires 0 <= j < |prev| =>
      var p := prev[j];
      var c := p.outputWeights[n.index];
      p.(outputWeights := p.outputWeights[n.index := Momentum(c, p.output, n.gradient, eta, alpha)]))
  }

  /** Evaluate every neuron of `layer` except the trailing bias neuron. */
  function FeedForwardLayer(layer: Layer, prev: Layer, tanh: real -> real): (r: Layer)
    requires 1 <= |layer|
    requires forall n :: 0 <= n < |layer| - 1 ==> Reaches(prev, layer[n].index)
    ensures |r| == |layer|
    ensures r[|r| - 1] == layer[|layer| - 1]
    ensures forall n :: 0 <= n < |layer| - 1 ==> r[n] == FeedForward(layer[n], prev, tanh)
  {
    seq(|layer|, n requires 0 <= n < |layer| =>
      if n < |layer| - 1 then FeedForward(layer[n], prev, tanh) else layer[n])
  }

  /** Output-layer gradients for every neuron but the bias one; `targets` may be
      longer than needed, the extra values are never read. */
  function OutputGradients(layer: Layer, targets: seq<real>): (r: Layer)
    requires 1 <= |layer| && |layer| - 1 <= |targets|
    ensures |r| == |layer|
    ensures r[|r| - 1] == layer[|layer| - 1]
    ensures forall n :: 0 <= n < |layer| - 1 ==> r[n] == CalcOutputGradients(layer[n], targets[n])
  {
    seq(|layer|, n requires 0 <= n < |layer| =>
      if n < |layer| - 1 then CalcOutputGradients(layer[n], targets[n]) else layer[n])
  }

  /** Hidden-layer gradients for every neuron, the bias neuron included. */
  function HiddenLayerGradients(layer: Layer, next: Layer): (r: Layer)
    requires 1 <= |next|
    requires forall n :: 0 <= n < |layer| ==> |next| - 1 <= |layer[n].outputWeights|
    ensures |r| == |layer|
    ensures forall n :: 0 <= n < |layer| ==> r[n] == CalcHiddenGradients(layer[n], next)
  {
    seq(|layer|, n requires 0 <= n < |layer| => CalcHiddenGradients(layer[n], next))
  }

  /** The first `k` neurons of `layer`, in order, each update their incoming
      connections in `prev`. With neurons indexed by position, connection `c`
      of every neuron of `prev` is updated once, with the gradient of neuron
      `c`, when `c < k`, and is untouched otherwise. */
  function UpdateLayerWeights(prev: Layer, layer: Layer, k: nat, eta: real, alpha: real): (r: Layer)
    requires k <= |layer|
    requires IndexedByPosition(layer)
    requires forall j :: 0 <= j < |prev| ==> k <= |prev[j].outputWeights|
    ensures |r| == |prev|
    ensures forall j :: 0 <= j < |prev| ==>
      r[j] == prev[j].(outputWeights := r[j].outputWeights) && |r[j].outputWeights| == |prev[j].outputWeights|
    ensures forall j, c :: 0 <= j < |prev| && 0 <= c < k ==>
      r[j].outputWeights[c] == Momentum(prev[j].outputWeights[c], prev[j].output, layer[c].gradient, eta, alpha)
    ensures forall j, c :: 0 <= j < |prev| && k <= c < |prev[j].outputWeights| ==>
      r[j].outputWeights[c] == prev[j].outputWeights[c]
  {
    if k == 0 then prev
    else
      var before := UpdateLayerWeights(prev, layer, k - 1, eta, alpha);
      var r := UpdateInputWeights(layer[k - 1], before, eta, alpha);
      assert layer[k - 1].index == k - 1;
      assert forall j :: 0 <= j < |prev| ==> before[j].output == prev[j].output;
      r
  }
}
