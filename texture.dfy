/** `rnd_cast_iron`: the cast-iron material of the part gets fresh random
    values on its shader nodes. Noise textures draw their scale from a table
    of three ranges, taken in the order the noise nodes appear; the principled
    BSDF gets a random base colour with alpha 1 and a roughness; the math node that
    amplifies the noise gets a random factor. Every other node is left alone.

    The draws of node `n` are injected as four unit values `draws[n]`; a node
    uses as many of them as it makes `random.uniform` calls. */
module RandomizeTexture {
  import opened Wrappers
  import opened Draws

  /** `NODES_NOISE_SCALE_MIN_MAX`: min and max of the k-th noise node at 2k, 2k+1. */
  const NoiseScaleMinMax: seq<real> := [0.8 * 20.0, 1.2 * 20.0, 0.8 * 8.0, 1.2 * 8.0, 0.8 * 0.2, 1.2 * 0.2]

  const MultMin: real := 5.0
  const MultMax: real := 10.0
  const RoughMin: real := 0.05
  const RoughMax: real := 0.15

  /** The table holds three ranges, and each one is a proper interval. */
  lemma RangesOrdered()
    ensures |NoiseScaleMinMax| == 6
    ensures forall k :: 0 <= k < 3 ==> NoiseScaleMinMax[2 * k] < NoiseScaleMinMax[2 * k + 1]
    ensures MultMin < MultMax && RoughMin < RoughMax
  {
  }

  /** The `node.type` values the function distinguishes. */
  datatype NodeType = TexNoise | BsdfPrincipled | MathNode | OtherNode(name: string)

  datatype Rgba = Rgba(r: real, g: real, b: real, a: real)

  /** The inputs the function may overwrite: `Scale`, `Base Color`,
      `Roughness` and `inputs[1]`. */
  datatype NodeState = NodeState(scale: real, baseColor: Rgba, roughness: real, input1: real)

  class ShaderNode {
    const nodeType: NodeType
    var scale: real
    var baseColor: Rgba
    var roughness: real
    var input1: real

    function State(): NodeState
      reads this
    {
      NodeState(scale, baseColor, roughness, input1)
    }

    constructor (t: NodeType, s: NodeState)
      ensures nodeType == t && State() == s
    {
      nodeType := t;
      scale, baseColor, roughness, input1 := s.scale, s.baseColor, s.roughness, s.input1;
    }
  }

  /** The four unit draws offered to one node. */
  datatype NodeDraws = NodeDraws(u0: real, u1: real, u2: real, u3: real)

  predicate DrawsOk(d: NodeDraws) {
    IsUnit(d.u0) && IsUnit(d.u1) && IsUnit(d.u2) && IsUnit(d.u3)
  }

  /** What lines 70-80 do to a node whose noise nodes before it number `rank`. */
  function Randomize(t: NodeType, s: NodeState, rank: nat, d: NodeDraws): (r: NodeState)
    requires DrawsOk(d) && (t.TexNoise? ==> rank < 3)
    ensures t.TexNoise? ==>
              r == s.(scale := r.scale) &&
              NoiseScaleMinMax[2 * rank] <= r.scale < NoiseScaleMinMax[2 * rank + 1]
    ensures t.BsdfPrincipled? ==>
              r == s.(baseColor := r.baseColor, roughness := r.roughness) &&
              0.0 <= r.baseColor.r < 1.0 && 0.0 <= r.baseColor.g < 1.0 && 0.0 <= r.baseColor.b < 1.0 &&
              r.baseColor.a == 1.0 && RoughMin <= r.roughness < RoughMax
    ensures t.MathNode? ==> r == s.(input1 := r.input1) && MultMin <= r.input1 < MultMax
    ensures t.OtherNode? ==> r == s
  {
    match t
    case TexNoise =>
      RangesOrdered();
      s.(scale := Uniform(NoiseScaleMinMax[2 * rank], NoiseScaleMinMax[2 * rank + 1], d.u0))
    case BsdfPrincipled =>
      s.(baseColor := Rgba(Uniform(0.0, 1.0, d.u0), Uniform(0.0, 1.0, d.u1), Uniform(0.0, 1.0, d.u2), 1.0),
         roughness := Uniform(RoughMin, RoughMax, d.u3))
    case MathNode => s.(input1 := Uniform(MultMin, MultMax, d.u0))
    case OtherNode(_) => s
  }

  /** The concrete ranges of the three noise nodes. */
  lemma NoiseScaleRanges(s: NodeState, rank: nat, d: NodeDraws)
    requires DrawsOk(d) && rank < 3
    ensures var r := Randomize(TexNoise, s, rank, d).scale;
            && (rank == 0 ==> 16.0 <= r < 24.0)
            && (rank == 1 ==> 6.4 <= r < 9.6)
            && (rank == 2 ==> 0.16 <= r < 0.24)
  {
  }

  function Types(nodes: seq<ShaderNode>): (ts: seq<NodeType>)
    ensures |ts| == |nodes| && forall n :: 0 <= n < |nodes| ==> ts[n] == nodes[n].nodeType
  {
    seq(|nodes|, n requires 0 <= n < |nodes| => nodes[n].nodeType)
  }

  /** The number of noise nodes among the first `n`. */
  function NoiseRank(types: seq<NodeType>, n: nat): (k: nat)
    requires n <= |types|
    ensures k <= n
  {
    if n == 0 then 0 else NoiseRank(types, n - 1) + (if types[n - 1].TexNoise? then 1 else 0)
  }

  /** Node `n` is the noise node for which the table has no range left. */
  predicate Overruns(types: seq<NodeType>, n: nat)
    requires n < |types|
  {
    types[n].TexNoise? && 2 * NoiseRank(types, n) + 1 >= |NoiseScaleMinMax|
  }

  /** The node at which the loop stops with an `IndexError`, if any. */
  function Overrun(types: seq<NodeType>): (r: Option<nat>)
    ensures r.None? <==> forall n :: 0 <= n < |types| ==> !Overruns(types, n)
    ensures r.Some? ==> r.value < |types| && Overruns(types, r.value) &&
                        forall n :: 0 <= n < r.value ==> !Overruns(types, n)
  {
    OverrunFrom(types, 0)
  }

  function OverrunFrom(types: seq<NodeType>, from: nat): (r: Option<nat>)
    requires from <= |types|
    ensures r.None? <==> forall n :: from <= n < |types| ==> !Overruns(types, n)
    ensures r.Some? ==> from <= r.value < |types| && Overruns(types, r.value) &&
                        forall n :: from <= n < r.value ==> !Overruns(types, n)
    decreases |types| - from
  {
    if from == |types| then None
    else if Overruns(types, from) then Some(from)
    else OverrunFrom(types, from + 1)
  }

  /** The nodes the loop reaches before it ends or fails. */
  function Reached(types: seq<NodeType>): (m: nat)
    ensures m <= |types|
  {
    match Overrun(types)
    case None => |types|
    case Some(n) => n
  }

  /** Before the node that overruns the table, at most three noise nodes have
      been seen, so every noise node reached has a range. */
  lemma {:induction false} RanksBeforeOverrun(types: seq<NodeType>, m: nat)
    requires m <= |types| && forall n :: 0 <= n < m ==> !Overruns(types, n)
    ensures NoiseRank(types, m) <= 3
    ensures forall n :: 0 <= n < m && types[n].TexNoise? ==> NoiseRank(types, n) < 3
  {
    if m > 0 {
      RanksBeforeOverrun(types, m - 1);
      assert !Overruns(types, m - 1);
      assert types[m - 1].TexNoise? ==> NoiseRank(types, m - 1) < 3;
      assert NoiseRank(types, m) == NoiseRank(types, m - 1) + (if types[m - 1].TexNoise? then 1 else 0);
    }
  }

  /** The loop fails exactly when there are more than three noise nodes, and
      then at the fourth one. */
  lemma {:induction false} OverrunIffFourNoiseNodes(types: seq<NodeType>)
    ensures Overrun(types).Some? <==> NoiseRank(types, |types|) > 3
    ensures Overrun(types).Some? ==> NoiseRank(types, Overrun(types).value) == 3
  {
    match Overrun(types)
    case None =>
      RanksBeforeOverrun(types, |types|);
    case Some(n) =>
      RanksBeforeOverrun(types, n);
      assert NoiseRank(types, n + 1) == 4;
      RankGrows(types, n + 1, |types|);
  }

  lemma {:induction false} RankGrows(types: seq<NodeType>, a: nat, b: nat)
    requires a <= b <= |types|
    ensures NoiseRank(types, a) <= NoiseRank(types, b)
    decreases b - a
  {
    if a < b {
      RankGrows(types, a, b - 1);
    }
  }

  /** The nodes of a node tree are distinct objects. */
  predicate Distinct(nodes: seq<ShaderNode>) {
    forall m, n :: 0 <= m < n < |nodes| ==> nodes[m] != nodes[n]
  }

  function NodeSet(nodes: seq<ShaderNode>): set<ShaderNode> {
    set n | 0 <= n < |nodes| :: nodes[n]
  }

  /** The nodes before `n` are randomized, given the states `olds` they had:
      each noise node among them has a range in the table, its rank. */
  predicate RandomizedBefore(nodes: seq<ShaderNode>, olds: seq<NodeState>, draws: seq<NodeDraws>, n: nat)
    requires |olds| == |draws| == |nodes| && n <= |nodes|
    requires forall m :: 0 <= m < |draws| ==> DrawsOk(draws[m])
    reads NodeSet(nodes)
  {
    forall m :: 0 <= m < n ==>
      (nodes[m].nodeType.TexNoise? ==> NoiseRank(Types(nodes), m) < 3) &&
      nodes[m].State() == Randomize(nodes[m].nodeType, olds[m], NoiseRank(Types(nodes), m), draws[m])
  }

  /** The nodes from `n` on still hold the states `olds`. */
  predicate UntouchedFrom(nodes: seq<ShaderNode>, olds: seq<NodeState>, n: nat)
    requires |olds| == |nodes|
    reads NodeSet(nodes)
  {
    forall m :: n <= m < |nodes| ==> nodes[m].State() == olds[m]
  }

  function States(nodes: seq<ShaderNode>): (r: seq<NodeState>)
    reads NodeSet(nodes)
    ensures |r| == |nodes| && forall n :: 0 <= n < |nodes| ==> r[n] == nodes[n].State()
  {
    seq(|nodes|, n requires 0 <= n < |nodes| reads NodeSet(nodes) => nodes[n].State())
  }

  /** The states a loop run that has passed the first `n` nodes leaves: the
      nodes before `n` randomized (a noise node that has run out of table is
      left as it was, but the loop never passes one), the rest as they were. */
  ghost function Expected(types: seq<NodeType>, olds: seq<NodeState>, draws: seq<NodeDraws>, n: nat): (r: seq<NodeState>)
    requires |olds| == |draws| == |types| && n <= |types|
    requires forall m :: 0 <= m < |draws| ==> DrawsOk(draws[m])
    ensures |r| == |olds|
  {
    seq(|olds|, m requires 0 <= m < |olds| =>
      if m < n && !(types[m].TexNoise? && NoiseRank(types, m) >= 3)
      then Randomize(types[m], olds[m], NoiseRank(types, m), draws[m])
      else olds[m])
  }

  /** What the expected states say node by node once the loop has stopped. */
  lemma ExpectedMeans(nodes: seq<ShaderNode>, olds: seq<NodeState>, draws: seq<NodeDraws>)
    requires |olds| == |draws| == |nodes|
    requires forall m :: 0 <= m < |draws| ==> DrawsOk(draws[m])
    requires States(nodes) == Expected(Types(nodes), olds, draws, Reached(Types(nodes)))
    ensures RandomizedBefore(nodes, olds, draws, Reached(Types(nodes)))
    ensures UntouchedFrom(nodes, olds, Reached(Types(nodes)))
  {
    var types := Types(nodes);
    var n := Reached(types);
    assert forall m :: 0 <= m < n ==> !Overruns(types, m);
    RanksBeforeOverrun(types, n);
    forall m | 0 <= m < n
      ensures nodes[m].State() == Randomize(nodes[m].nodeType, olds[m], NoiseRank(types, m), draws[m])
    {
      assert States(nodes)[m] == nodes[m].State();
    }
    forall m | n <= m < |nodes|
      ensures nodes[m].State() == olds[m]
    {
      assert States(nodes)[m] == nodes[m].State();
    }
  }

  /** Lines 65-80. The loop walks the nodes in order with `i` advancing by 2
      on every noise node; it fails with an `IndexError` at the fourth noise
      node, leaving that node and all after it untouched. Every node it passes
      is randomized according to its type and, for a noise node, its rank. */
  method RndCastIron(nodes: seq<ShaderNode>, draws: seq<NodeDraws>) returns (failedAt: Option<nat>)
    requires Distinct(nodes)
    requires |draws| == |nodes| && forall n :: 0 <= n < |draws| ==> DrawsOk(draws[n])
    modifies NodeSet(nodes)
    ensures failedAt == Overrun(Types(nodes))
    ensures RandomizedBefore(nodes, old(States(nodes)), draws, Reached(Types(nodes)))
    ensures UntouchedFrom(nodes, old(States(nodes)), Reached(Types(nodes)))
  {
    ghost var olds := States(nodes);
    failedAt := RandomizeAll(nodes, Types(nodes), olds, draws);
    ExpectedMeans(nodes, olds, draws);
  }

  /** The loop itself, stated against the expected states. */
  method RandomizeAll(nodes: seq<ShaderNode>, ghost types: seq<NodeType>, ghost olds: seq<NodeState>, draws: seq<NodeDraws>)
    returns (failedAt: Option<nat>)
    requires Distinct(nodes) && types == Types(nodes) && olds == States(nodes)
    requires |draws| == |nodes| && forall n :: 0 <= n < |draws| ==> DrawsOk(draws[n])
    modifies NodeSet(nodes)
    ensures failedAt == Overrun(types)
    ensures States(nodes) == Expected(types, olds, draws, Reached(types))
  {
    assert olds == Expected(types, olds, draws, 0);
    var i := 0;
    for n := 0 to |nodes|
      invariant i == 2 * NoiseRank(types, n)
      invariant Overrun(types) == OverrunFrom(types, n)
      invariant States(nodes) == Expected(types, olds, draws, n)
    {
      if nodes[n].nodeType.TexNoise? && i + 1 >= |NoiseScaleMinMax| {
        failedAt := Some(n);
        return;
      }
      i := NodeStep(nodes, types, olds, draws, n, i);
    }
    failedAt := None;
  }

  /** One pass of the loop past a node that does not overrun the table:
      node `n` is randomized, the others keep their state, and `i` moves on
      to the next range if `n` is a noise node. */
  method NodeStep(nodes: seq<ShaderNode>, ghost types: seq<NodeType>, ghost olds: seq<NodeState>, draws: seq<NodeDraws>,
                  n: nat, i: nat) returns (i': nat)
    requires Distinct(nodes) && types == Types(nodes) && |olds| == |draws| == |nodes| && n < |nodes|
    requires forall m :: 0 <= m < |draws| ==> DrawsOk(draws[m])
    requires i == 2 * NoiseRank(types, n) && !(types[n].TexNoise? && i + 1 >= |NoiseScaleMinMax|)
    requires Overrun(types) == OverrunFrom(types, n)
    requires States(nodes) == Expected(types, olds, draws, n)
    modifies nodes[n]
    ensures i' == 2 * NoiseRank(types, n + 1)
    ensures Overrun(types) == OverrunFrom(types, n + 1)
    ensures States(nodes) == Expected(types, olds, draws, n + 1)
  {
    ghost var rank := NoiseRank(types, n);
    RangesOrdered();
    RandomizeAt(nodes, n, i, rank, draws[n]);
    ExpectedStep(types, olds, draws, n);
    i' := if nodes[n].nodeType.TexNoise? then i + 2 else i;
  }

  /** Randomizing node `n` of a tree of distinct nodes changes its state only. */
  method RandomizeAt(nodes: seq<ShaderNode>, n: nat, i: nat, ghost rank: nat, d: NodeDraws)
    requires Distinct(nodes) && n < |nodes|
    requires DrawsOk(d) && i == 2 * rank && (nodes[n].nodeType.TexNoise? ==> rank < 3)
    modifies nodes[n]
    ensures States(nodes) == old(States(nodes))[n := Randomize(nodes[n].nodeType, old(nodes[n].State()), rank, d)]
  {
    ghost var before := States(nodes);
    RandomizeNode(nodes[n], i, rank, d);
    forall m | 0 <= m < |nodes| && m != n
      ensures States(nodes)[m] == before[m]
    {
      assert nodes[m] != nodes[n];
    }
    assert States(nodes) == before[n := nodes[n].State()];
  }

  /** Passing node `n` updates the expected states at `n` alone. */
  lemma ExpectedStep(types: seq<NodeType>, olds: seq<NodeState>, draws: seq<NodeDraws>, n: nat)
    requires |olds| == |draws| == |types| && n < |types|
    requires forall m :: 0 <= m < |draws| ==> DrawsOk(draws[m])
    requires !(types[n].TexNoise? && NoiseRank(types, n) >= 3)
    ensures Expected(types, olds, draws, n + 1) ==
            Expected(types, olds, draws, n)[n := Randomize(types[n], olds[n], NoiseRank(types, n), draws[n])]
  {
  }

  /** The body of the loop for one node; `i` is the table index of its range
      if it is a noise node. */
  method RandomizeNode(node: ShaderNode, i: nat, ghost rank: nat, d: NodeDraws)
    requires DrawsOk(d) && i == 2 * rank && (node.nodeType.TexNoise? ==> rank < 3)
    modifies node
    ensures node.State() == Randomize(node.nodeType, old(node.State()), rank, d)
  {
    match node.nodeType
    case TexNoise =>
      RangesOrdered();
      node.scale := Uniform(NoiseScaleMinMax[i], NoiseScaleMinMax[i + 1], d.u0);
    case BsdfPrincipled =>
      node.baseColor := Rgba(Uniform(0.0, 1.0, d.u0), Uniform(0.0, 1.0, d.u1), Uniform(0.0, 1.0, d.u2), 1.0);
      node.roughness := Uniform(RoughMin, RoughMax, d.u3);
    case MathNode =>
      node.input1 := Uniform(MultMin, MultMax, d.u0);
    case OtherNode(_) =>
  }
}
