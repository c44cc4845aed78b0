/**
 * The stage planner: cut a model's layers into contiguous pipeline stages under
 * the family cut rules, minimising the cost of the most expensive stage, and the
 * scheduler's critical path over such a plan.
 */
module StagePlan {
  import opened Arithmetic
  import opened Results

  const ABI_VERSION := 1
  const MAX_STAGE_COUNT := 13
  const DESCRIPTOR_BYTES := 16 + MAX_STAGE_COUNT * 16
  const U64_MAX := 0xFFFF_FFFF_FFFF_FFFF
  /** Sentinel of an unreachable table cell: `u64::MAX / 4`. */
  const UNREACHABLE_COST := 0x3FFF_FFFF_FFFF_FFFF

  /** Split recorded in an unreachable table cell: `u32::MAX`. */
  const NO_SPLIT := 0xFFFF_FFFF

  datatype Geometry = Geometry(layerCount: nat, firstRoutedLayer: nat, maxRoutedLayersPerStage: nat)

  /** The bits of a stage's flag word; `Unknown` stands for every bit outside the known mask. */
  datatype StageFlag = FinalToken | InputHidden | OutputHidden | DensePrefix | Unknown

  datatype Stage = Stage(firstLayer: nat, layerCount: nat, flags: set<StageFlag>)

  datatype Plan = Plan(abiVersion: nat, descriptorBytes: nat, stageCount: nat, stages: seq<Stage>)

  datatype Error =
    | InvalidArgument(reason: string)
    | CapacityExceeded(reason: string)
    | AbiMismatch(reason: string)
    | InternalError(reason: string)

  const CUT_RULES_ERROR := CapacityExceeded("stage count cannot satisfy the cut rules")
  const OVERFLOW_ERROR := CapacityExceeded("layer cost prefix overflow")

  // ---- Cut rules -----------------------------------------------------------

  function RoutedLayerCount(first: nat, count: nat, firstRouted: nat, total: nat): nat {
    var begin := Max(first, firstRouted);
    var end := if first + count < total then first + count else total;
    if begin < end then end - begin else 0
  }

  /** Whether one stage may hold layers `first .. first + count`. */
  predicate LayerRangeIsValid(g: Geometry, first: nat, count: nat) {
    && count != 0
    && first < g.layerCount
    && count <= g.layerCount - first
    && (g.firstRoutedLayer < g.layerCount ==>
          (first == 0 || g.firstRoutedLayer <= first) && g.firstRoutedLayer <= first + count)
    && RoutedLayerCount(first, count, g.firstRoutedLayer, g.layerCount) <= g.maxRoutedLayersPerStage
  }

  predicate NotBelow(lo: nat, l: nat) { lo <= l }

  ghost function LayersBetween(lo: nat, hi: nat): set<nat> {
    set l: nat | l < hi && NotBelow(lo, l)
  }

  lemma {:induction false} LayersAreCounted(lo: nat, hi: nat)
    ensures |LayersBetween(lo, hi)| == if lo < hi then hi - lo else 0
  {
    if lo < hi {
      LayersAreCounted(lo, hi - 1);
      assert LayersBetween(lo, hi) == LayersBetween(lo, hi - 1) + {hi - 1};
    } else {
      assert LayersBetween(lo, hi) == {};
    }
  }

  lemma StageHoldsDense(first: nat, count: nat, routed: nat)
    requires count > 0
    ensures var layers, dense := LayersBetween(first, first + count), LayersBetween(0, routed);
      dense <= layers || dense !! layers <==> routed == 0 || (first == 0 && routed <= count) || routed <= first
  {
    var layers, dense := LayersBetween(first, first + count), LayersBetween(0, routed);
    if routed > 0 {
      assert 0 in dense && routed - 1 in dense;
      if first < routed {
        assert first in dense && first in layers;
      }
    }
  }

  /**
   * What the cut rules mean: a stage is a non-empty range of the model's layers that holds all dense layers or none
   * of them, unless all layers are dense, and no more routed layers than allowed.
   */
  lemma LegalStageIff(g: Geometry, first: nat, count: nat)
    requires g.firstRoutedLayer <= g.layerCount
    ensures var layers, dense := LayersBetween(first, first + count), LayersBetween(0, g.firstRoutedLayer);
      LayerRangeIsValid(g, first, count) <==>
        && layers != {} && layers <= LayersBetween(0, g.layerCount)
        && (g.firstRoutedLayer == g.layerCount || dense <= layers || dense !! layers)
        && |layers - dense| <= g.maxRoutedLayersPerStage
  {
    var layers, dense := LayersBetween(first, first + count), LayersBetween(0, g.firstRoutedLayer);
    if count > 0 {
      assert first in layers && first + count - 1 in layers;
      StageHoldsDense(first, count, g.firstRoutedLayer);
    }
    assert layers - dense == LayersBetween(Max(first, g.firstRoutedLayer), first + count);
    LayersAreCounted(Max(first, g.firstRoutedLayer), first + count);
  }

  // ---- Reference definition of a cut and of its cost -----------------------

  /** Cost of layers `lo .. hi`. */
  ghost function Sum(costs: seq<nat>, lo: nat, hi: nat): nat
    requires hi <= |costs|
    decreases hi
  {
    if hi <= lo then 0 else Sum(costs, lo, hi - 1) + costs[hi - 1]
  }

  /** Boundaries `i` and `i + 1` enclose a legal stage. */
  ghost predicate StepIsLegal(g: Geometry, cuts: seq<nat>, i: nat)
    requires i + 1 < |cuts|
  {
    cuts[i] < cuts[i + 1] && LayerRangeIsValid(g, cuts[i], cuts[i + 1] - cuts[i])
  }

  /** `cuts` lists the `stages + 1` boundaries of a legal division of layers `0 .. layers`. */
  ghost predicate IsCut(g: Geometry, cuts: seq<nat>, stages: nat, layers: nat) {
    && |cuts| == stages + 1
    && cuts[0] == 0
    && cuts[stages] == layers
    && forall i :: 0 <= i < stages ==> StepIsLegal(g, cuts, i)
  }

  /** What a division is costed against: the layer costs, the final stage's extra and the stage count. */
  datatype Profile = Profile(costs: seq<nat>, extra: nat, stageCount: nat)

  /** Cost of the stage number `stage` (from 1) when it holds layers `lo .. hi`. */
  ghost function SegmentCost(p: Profile, stage: nat, lo: nat, hi: nat): nat
    requires hi <= |p.costs|
  {
    Sum(p.costs, lo, hi) + if stage == p.stageCount then p.extra else 0
  }

  /** Cost of the most expensive stage of a division. */
  ghost function WorstCost(p: Profile, cuts: seq<nat>): nat
    requires forall i :: 0 <= i < |cuts| ==> cuts[i] <= |p.costs|
  {
    var n := |cuts|;
    if n <= 1 then 0
    else Max(WorstCost(p, cuts[..n - 1]), SegmentCost(p, n - 1, cuts[n - 2], cuts[n - 1]))
  }

  lemma {:induction false} CutIsBounded(g: Geometry, cuts: seq<nat>, stages: nat, layers: nat, i: nat)
    requires IsCut(g, cuts, stages, layers)
    requires i <= stages
    ensures cuts[i] <= layers
    decreases stages - i
  {
    if i < stages {
      assert StepIsLegal(g, cuts, i);
      CutIsBounded(g, cuts, stages, layers, i + 1);
    }
  }

  /** The boundaries of a cut stay within the cost table. */
  ghost predicate CutWithin(g: Geometry, p: Profile, cuts: seq<nat>, stages: nat, layers: nat) {
    IsCut(g, cuts, stages, layers) && forall i :: 0 <= i < |cuts| ==> cuts[i] <= |p.costs|
  }

  lemma CutStaysWithin(g: Geometry, p: Profile, cuts: seq<nat>, stages: nat, layers: nat)
    requires IsCut(g, cuts, stages, layers)
    requires layers <= |p.costs|
    ensures CutWithin(g, p, cuts, stages, layers)
  {
    forall i | 0 <= i < |cuts| ensures cuts[i] <= |p.costs| {
      CutIsBounded(g, cuts, stages, layers, i);
    }
  }

  // ---- The dynamic program -------------------------------------------------

  /** The two tables: least worst cost of `l` layers in `s` stages, and the split that reaches it. */
  datatype Tables = Tables(best: seq<seq<nat>>, splits: seq<seq<nat>>)

  /** `split` reaches cell `(stage, l)` at cost `cost` from the row before. */
  ghost predicate Reached(g: Geometry, p: Profile, previous: seq<nat>, stage: nat, l: nat, split: nat, cost: nat)
    requires l < |previous| && l <= |p.costs|
  {
    && split < l
    && previous[split] < UNREACHABLE_COST
    && LayerRangeIsValid(g, split, l - split)
    && cost == Max(previous[split], SegmentCost(p, stage, split, l))
  }

  /** Extending the division behind `previous[k]` by one stage costs at least `cost`. */
  ghost predicate SplitCostsAtLeast(g: Geometry, p: Profile, previous: seq<nat>, stage: nat, l: nat, k: nat, cost: nat)
    requires k < l < |previous| && l <= |p.costs|
  {
    && previous[k] < UNREACHABLE_COST
    && LayerRangeIsValid(g, k, l - k)
    ==> cost <= Max(previous[k], SegmentCost(p, stage, k, l))
  }

  /** No split below `limit` reaches cell `(stage, l)` at less than `cost`. */
  ghost predicate Minimal(g: Geometry, p: Profile, previous: seq<nat>, stage: nat, l: nat, cost: nat, limit: nat)
    requires limit <= l < |previous| && l <= |p.costs|
  {
    forall k :: 0 <= k < limit ==> SplitCostsAtLeast(g, p, previous, stage, l, k, cost)
  }

  lemma LowerCostStaysMinimal(g: Geometry, p: Profile, previous: seq<nat>, stage: nat, l: nat, cost: nat, lower: nat,
                              limit: nat)
    requires limit <= l < |previous| && l <= |p.costs|
    requires Minimal(g, p, previous, stage, l, cost, limit)
    requires lower <= cost
    ensures Minimal(g, p, previous, stage, l, lower, limit)
  {
    forall k | 0 <= k < limit ensures SplitCostsAtLeast(g, p, previous, stage, l, k, lower) {
      assert SplitCostsAtLeast(g, p, previous, stage, l, k, cost);
    }
  }

  /** One finished cell: minimal over all splits, and reached first by its recorded split when finite. */
  ghost predicate CellDone(g: Geometry, p: Profile, previous: seq<nat>, stage: nat, l: nat, cost: nat, split: nat)
    requires l < |previous| && l <= |p.costs|
  {
    && cost <= UNREACHABLE_COST
    && Minimal(g, p, previous, stage, l, cost, l)
    && (cost < UNREACHABLE_COST ==>
          Reached(g, p, previous, stage, l, split, cost) && Minimal(g, p, previous, stage, l, cost + 1, split))
  }

  ghost predicate RowDone(g: Geometry, p: Profile, previous: seq<nat>, stage: nat, row: seq<nat>, splits: seq<nat>,
                          upTo: nat)
  {
    && 1 <= |row| == |splits| == |previous|
    && upTo <= |previous| <= |p.costs| + 1
    && row[0] == UNREACHABLE_COST
    && forall l :: 1 <= l < upTo ==> CellDone(g, p, previous, stage, l, row[l], splits[l])
  }

  /** Row `s` of the tables is finished; row zero reaches only zero layers. */
  ghost predicate RowOf(g: Geometry, p: Profile, t: Tables, s: nat) {
    && s < |t.best| == |t.splits|
    && |t.best[s]| == g.layerCount + 1 <= |p.costs| + 1
    && (s == 0 ==> forall l :: 0 <= l <= g.layerCount ==> t.best[0][l] == if l == 0 then 0 else UNREACHABLE_COST)
    && (s > 0 ==> RowDone(g, p, t.best[s - 1], s, t.best[s], t.splits[s], g.layerCount + 1))
  }

  ghost predicate TablesDone(g: Geometry, p: Profile, t: Tables, stages: nat) {
    && |t.best| == |t.splits| == stages + 1
    && forall s :: 0 <= s <= stages ==> RowOf(g, p, t, s)
  }

  /** The facts one finished cell offers: its bound, and where it came from. */
  lemma CellFacts(g: Geometry, p: Profile, t: Tables, stages: nat, s: nat, l: nat)
    requires TablesDone(g, p, t, stages)
    requires s <= stages && l <= g.layerCount
    ensures |t.best[s]| == g.layerCount + 1 <= |p.costs| + 1
    ensures t.best[s][l] <= UNREACHABLE_COST
    ensures s == 0 ==> t.best[s][l] == if l == 0 then 0 else UNREACHABLE_COST
    ensures s > 0 ==> |t.splits[s]| == |t.best[s - 1]| == g.layerCount + 1
    ensures s > 0 && l > 0 ==> CellDone(g, p, t.best[s - 1], s, l, t.best[s][l], t.splits[s][l])
    ensures s > 0 && t.best[s][l] < UNREACHABLE_COST ==>
      Reached(g, p, t.best[s - 1], s, l, t.splits[s][l], t.best[s][l])
  {
    assert RowOf(g, p, t, s);
  }

  lemma CutShrinks(g: Geometry, p: Profile, cuts: seq<nat>, s: nat, l: nat)
    requires CutWithin(g, p, cuts, s, l)
    requires s > 0
    ensures CutWithin(g, p, cuts[..s], s - 1, cuts[s - 1])
    ensures cuts[s - 1] < l <= |p.costs| && LayerRangeIsValid(g, cuts[s - 1], l - cuts[s - 1])
    ensures WorstCost(p, cuts) == Max(WorstCost(p, cuts[..s]), SegmentCost(p, s, cuts[s - 1], l))
  {
    assert StepIsLegal(g, cuts, s - 1);
    forall i | 0 <= i < s - 1 ensures StepIsLegal(g, cuts[..s], i) {
      assert StepIsLegal(g, cuts, i);
    }
  }

  lemma CutGrows(g: Geometry, p: Profile, cuts: seq<nat>, s: nat, k: nat, l: nat)
    requires CutWithin(g, p, cuts, s, k)
    requires k < l <= |p.costs| && LayerRangeIsValid(g, k, l - k)
    ensures CutWithin(g, p, cuts + [l], s + 1, l)
    ensures WorstCost(p, cuts + [l]) == Max(WorstCost(p, cuts), SegmentCost(p, s + 1, k, l))
  {
    var longer := cuts + [l];
    assert longer[..s + 1] == cuts;
    forall i | 0 <= i < s + 1 ensures StepIsLegal(g, longer, i) {
      assert i < s ==> StepIsLegal(g, cuts, i);
    }
  }

  /** No legal division beats the tables. */
  lemma {:induction false} TablesAreLowerBound(g: Geometry, p: Profile, t: Tables, stages: nat, s: nat, l: nat,
                                               cuts: seq<nat>)
    requires TablesDone(g, p, t, stages)
    requires s <= stages && l <= g.layerCount
    requires CutWithin(g, p, cuts, s, l)
    ensures |t.best[s]| == g.layerCount + 1
    ensures t.best[s][l] <= WorstCost(p, cuts)
    decreases s
  {
    CellFacts(g, p, t, stages, s, l);
    if s > 0 {
      var k := cuts[s - 1];
      CutShrinks(g, p, cuts, s, l);
      TablesAreLowerBound(g, p, t, stages, s - 1, k, cuts[..s]);
      assert SplitCostsAtLeast(g, p, t.best[s - 1], s, l, k, t.best[s][l]);
    }
  }

  /** The boundaries the recorded splits describe. */
  ghost function Trace(splits: seq<seq<nat>>, s: nat, l: nat): seq<nat> {
    if s == 0 then [0]
    else if s < |splits| && l < |splits[s]| then Trace(splits, s - 1, splits[s][l]) + [l]
    else []
  }

  lemma TraceEnds(splits: seq<seq<nat>>, s: nat, l: nat, trace: seq<nat>)
    requires trace == Trace(splits, s, l) != [] && (s == 0 ==> l == 0)
    ensures trace[|trace| - 1] == l
  {
  }

  /** A prefix of a trace is the trace of the cell its last split names. */
  lemma TraceStepsBack(cuts: seq<nat>, splits: seq<seq<nat>>, s: nat, l: nat)
    requires s + 1 < |splits| && l < |splits[s + 1]|
    requires s + 1 < |cuts| && cuts[..s + 2] == Trace(splits, s + 1, l)
    ensures cuts[..s + 1] == Trace(splits, s, splits[s + 1][l])
  {
    var shorter := Trace(splits, s, splits[s + 1][l]);
    assert cuts[..s + 2] == shorter + [l];
    assert cuts[..s + 1] == cuts[..s + 2][..s + 1];
  }

  /** A finite cell is the cost of the legal division its splits describe. */
  lemma {:induction false} TraceReachesTables(g: Geometry, p: Profile, t: Tables, stages: nat, s: nat, l: nat)
    requires TablesDone(g, p, t, stages)
    requires s <= stages && l <= g.layerCount
    requires |t.best[s]| == g.layerCount + 1 && t.best[s][l] < UNREACHABLE_COST
    ensures CutWithin(g, p, Trace(t.splits, s, l), s, l)
    ensures WorstCost(p, Trace(t.splits, s, l)) == t.best[s][l]
    decreases s
  {
    CellFacts(g, p, t, stages, s, l);
    if s > 0 {
      var k := t.splits[s][l];
      TraceReachesTables(g, p, t, stages, s - 1, k);
      CutGrows(g, p, Trace(t.splits, s - 1, k), s - 1, k, l);
    }
  }

  /**
   * The first `i` stages are an optimal division of the layers up to boundary `i`, and the last of them starts no
   * later than in any other optimal one.
   */
  ghost predicate EarliestAt(g: Geometry, p: Profile, cuts: seq<nat>, i: nat)
    requires 0 < i < |cuts| && forall j :: 0 <= j < |cuts| ==> cuts[j] <= |p.costs|
  {
    forall other :: CutWithin(g, p, other, i, cuts[i]) ==>
      && WorstCost(p, cuts[..i + 1]) <= WorstCost(p, other)
      && (WorstCost(p, cuts[..i + 1]) == WorstCost(p, other) ==> cuts[i - 1] <= other[i - 1])
  }

  ghost predicate IsEarliest(g: Geometry, p: Profile, cuts: seq<nat>) {
    && (forall j :: 0 <= j < |cuts| ==> cuts[j] <= |p.costs|)
    && forall i :: 0 < i < |cuts| ==> EarliestAt(g, p, cuts, i)
  }

  /** No optimal division of a cell starts its last stage before the recorded split. */
  lemma SplitIsEarliest(g: Geometry, p: Profile, t: Tables, stages: nat, s: nat, l: nat, other: seq<nat>)
    requires TablesDone(g, p, t, stages)
    requires 0 < s <= stages && l <= g.layerCount
    requires |t.best[s]| == g.layerCount + 1 && t.best[s][l] < UNREACHABLE_COST
    requires CutWithin(g, p, other, s, l)
    ensures |t.splits[s]| == g.layerCount + 1 && t.best[s][l] <= WorstCost(p, other)
    ensures t.best[s][l] == WorstCost(p, other) ==> t.splits[s][l] <= other[s - 1]
  {
    CellFacts(g, p, t, stages, s, l);
    TablesAreLowerBound(g, p, t, stages, s, l, other);
    var k := other[s - 1];
    CutShrinks(g, p, other, s, l);
    TablesAreLowerBound(g, p, t, stages, s - 1, k, other[..s]);
    if k < t.splits[s][l] {
      assert SplitCostsAtLeast(g, p, t.best[s - 1], s, l, k, t.best[s][l] + 1);
    }
  }

  lemma EarliestGrows(g: Geometry, p: Profile, cuts: seq<nat>, l: nat)
    requires IsEarliest(g, p, cuts) && cuts != [] && l <= |p.costs| && EarliestAt(g, p, cuts + [l], |cuts|)
    ensures IsEarliest(g, p, cuts + [l])
  {
    var longer := cuts + [l];
    forall i | 0 < i < |longer| ensures EarliestAt(g, p, longer, i) {
      if i < |cuts| {
        assert EarliestAt(g, p, cuts, i) && longer[..i + 1] == cuts[..i + 1];
      }
    }
  }

  lemma TraceStepIsEarliest(g: Geometry, p: Profile, t: Tables, stages: nat, s: nat, l: nat, cuts: seq<nat>)
    requires TablesDone(g, p, t, stages)
    requires 0 < s <= stages && l <= g.layerCount
    requires |t.best[s]| == g.layerCount + 1 && t.best[s][l] < UNREACHABLE_COST
    requires |t.splits[s]| == g.layerCount + 1 && CutWithin(g, p, cuts, s, l)
    requires WorstCost(p, cuts) == t.best[s][l] && cuts[s - 1] == t.splits[s][l]
    ensures EarliestAt(g, p, cuts, s)
  {
    assert cuts[..s + 1] == cuts;
    forall other | CutWithin(g, p, other, s, l)
      ensures WorstCost(p, cuts) <= WorstCost(p, other)
      ensures WorstCost(p, cuts) == WorstCost(p, other) ==> cuts[s - 1] <= other[s - 1]
    {
      SplitIsEarliest(g, p, t, stages, s, l, other);
    }
  }

  /** The division the recorded splits describe is the earliest. */
  lemma {:induction false} TraceIsEarliest(g: Geometry, p: Profile, t: Tables, stages: nat, s: nat, l: nat)
    requires TablesDone(g, p, t, stages)
    requires s <= stages && l <= g.layerCount
    requires |t.best[s]| == g.layerCount + 1 && t.best[s][l] < UNREACHABLE_COST
    ensures IsEarliest(g, p, Trace(t.splits, s, l))
    decreases s
  {
    CellFacts(g, p, t, stages, s, l);
    TraceReachesTables(g, p, t, stages, s, l);
    if s > 0 {
      var k := t.splits[s][l];
      TraceReachesTables(g, p, t, stages, s - 1, k);
      TraceIsEarliest(g, p, t, stages, s - 1, k);
      TraceEnds(t.splits, s - 1, k, Trace(t.splits, s - 1, k));
      TraceStepIsEarliest(g, p, t, stages, s, l, Trace(t.splits, s, l));
      EarliestGrows(g, p, Trace(t.splits, s - 1, k), l);
    }
  }

  // ---- The planner's loops -------------------------------------------------

  ghost predicate IsPrefixSum(costs: seq<nat>, prefix: seq<nat>, upTo: nat) {
    && |prefix| == upTo + 1 <= |costs| + 1
    && forall i :: 0 <= i <= upTo ==> prefix[i] == Sum(costs, 0, i)
  }

  lemma {:induction false} SumSplits(costs: seq<nat>, lo: nat, hi: nat)
    requires lo <= hi <= |costs|
    ensures Sum(costs, 0, hi) == Sum(costs, 0, lo) + Sum(costs, lo, hi)
    decreases hi
  {
    if lo < hi {
      SumSplits(costs, lo, hi - 1);
    }
  }

  /** The inputs whose layer costs the planner accepts: all positive, and their sum fits 64 bits. */
  ghost predicate CostsFit(costs: seq<nat>, layers: nat)
    requires layers <= |costs|
  {
    (forall i :: 0 <= i < layers ==> costs[i] != 0) && Sum(costs, 0, layers) <= U64_MAX
  }

  lemma {:induction false} SumGrows(costs: seq<nat>, shorter: nat, longer: nat)
    requires shorter <= longer <= |costs|
    ensures Sum(costs, 0, shorter) <= Sum(costs, 0, longer)
  {
    SumSplits(costs, shorter, longer);
  }

  method PrefixCosts(costs: seq<nat>, layers: nat) returns (r: Result<seq<nat>, Error>)
    requires layers <= |costs|
    requires forall i :: 0 <= i < |costs| ==> costs[i] <= U64_MAX
    ensures r.Ok? <==> CostsFit(costs, layers)
    ensures r.Ok? ==> IsPrefixSum(costs, r.value, layers)
    ensures r.Err? ==> r.error == InvalidArgument("layer cost cannot be zero") || r.error == OVERFLOW_ERROR
  {
    var prefix: seq<nat> := [0];
    for layer := 0 to layers
      invariant IsPrefixSum(costs, prefix, layer)
      invariant prefix[layer] <= U64_MAX
      invariant forall i :: 0 <= i < layer ==> costs[i] != 0
    {
      if costs[layer] == 0 {
        return Err(InvalidArgument("layer cost cannot be zero"));
      }
      // The 64-bit sum wraps exactly when the exact sum exceeds the range, and then it decreases.
      var sum := (prefix[layer] + costs[layer]) % (U64_MAX + 1);
      if sum < prefix[layer] {
        SumGrows(costs, layer + 1, layers);
        return Err(OVERFLOW_ERROR);
      }
      prefix := prefix + [sum];
    }
    return Ok(prefix);
  }

  /** Fill one row of the table from the row before it. */
  method FillRow(g: Geometry, p: Profile, prefix: seq<nat>, previous: seq<nat>, stage: nat)
    returns (row: seq<nat>, splits: seq<nat>)
    requires g.layerCount <= |p.costs|
    requires IsPrefixSum(p.costs, prefix, g.layerCount)
    requires |previous| == g.layerCount + 1
    requires forall l :: 0 <= l < |previous| ==> previous[l] <= UNREACHABLE_COST
    requires p.extra <= U64_MAX
    ensures RowDone(g, p, previous, stage, row, splits, g.layerCount + 1)
  {
    row := seq(g.layerCount + 1, _ => UNREACHABLE_COST);
    splits := seq(g.layerCount + 1, _ => NO_SPLIT);
    for layer := 1 to g.layerCount + 1
      invariant RowDone(g, p, previous, stage, row, splits, layer)
      invariant forall l :: layer <= l <= g.layerCount ==> row[l] == UNREACHABLE_COST
    {
      var cost: nat, best: nat := UNREACHABLE_COST, NO_SPLIT;
      for split := 0 to layer
        invariant cost <= UNREACHABLE_COST
        invariant Minimal(g, p, previous, stage, layer, cost, split)
        invariant cost < UNREACHABLE_COST ==>
          Reached(g, p, previous, stage, layer, best, cost) && Minimal(g, p, previous, stage, layer, cost + 1, best)
      {
        if previous[split] == UNREACHABLE_COST || !LayerRangeIsValid(g, split, layer - split) {
          assert SplitCostsAtLeast(g, p, previous, stage, layer, split, cost);
          continue;
        }
        SumSplits(p.costs, split, layer);
        var segment := prefix[layer] - prefix[split];
        if stage == p.stageCount {
          if segment > U64_MAX - p.extra {
            assert SplitCostsAtLeast(g, p, previous, stage, layer, split, cost);
            continue;
          }
          segment := segment + p.extra;
        }
        assert segment == SegmentCost(p, stage, split, layer);
        var candidate := Max(previous[split], segment);
        if candidate < cost {
          LowerCostStaysMinimal(g, p, previous, stage, layer, cost, candidate, split);
          LowerCostStaysMinimal(g, p, previous, stage, layer, cost, candidate + 1, split);
          cost, best := candidate, split;
        }
        assert SplitCostsAtLeast(g, p, previous, stage, layer, split, cost);
      }
      row, splits := row[layer := cost], splits[layer := best];
    }
  }

  method FillTables(g: Geometry, p: Profile, prefix: seq<nat>) returns (t: Tables)
    requires g.layerCount <= |p.costs|
    requires IsPrefixSum(p.costs, prefix, g.layerCount)
    requires p.extra <= U64_MAX
    ensures TablesDone(g, p, t, p.stageCount)
  {
    var first := seq(g.layerCount + 1, l => if l == 0 then 0 else UNREACHABLE_COST);
    t := Tables([first], [[]]);
    for stage := 1 to p.stageCount + 1
      invariant TablesDone(g, p, t, stage - 1)
    {
      var previous := t.best[stage - 1];
      assert RowOf(g, p, t, stage - 1);
      forall l | 0 <= l < |previous| ensures previous[l] <= UNREACHABLE_COST {
        CellFacts(g, p, t, stage - 1, stage - 1, l);
      }
      var row, rowSplits := FillRow(g, p, prefix, previous, stage);
      ghost var before := t;
      t := Tables(t.best + [row], t.splits + [rowSplits]);
      forall s | 0 <= s <= stage ensures RowOf(g, p, t, s) {
        assert s < stage ==> RowOf(g, p, before, s);
      }
    }
  }

  /** Stage `i` holds the layers between boundaries `i` and `i + 1`. */
  ghost predicate StageSpans(stage: Stage, cuts: seq<nat>, i: nat)
    requires i + 1 < |cuts|
  {
    stage.firstLayer == cuts[i] && stage.firstLayer + stage.layerCount == cuts[i + 1]
  }

  /** The boundaries of a stage list: every first layer, then the end of the last stage. */
  ghost function Boundaries(stages: seq<Stage>): seq<nat> {
    var n := |stages|;
    if n == 0 then [0]
    else seq(n, i requires 0 <= i < n => stages[i].firstLayer) + [stages[n - 1].firstLayer + stages[n - 1].layerCount]
  }

  /** Stage `i` starts where the stage before it ends and holds a legal range. */
  ghost predicate StageIsPlaced(g: Geometry, stages: seq<Stage>, i: nat)
    requires i < |stages|
  {
    && stages[i].firstLayer == (if i == 0 then 0 else stages[i - 1].firstLayer + stages[i - 1].layerCount)
    && LayerRangeIsValid(g, stages[i].firstLayer, stages[i].layerCount)
  }

  /** The first `upTo` stages are contiguous and legal and end before layer `end`. */
  ghost predicate Contiguous(g: Geometry, stages: seq<Stage>, upTo: nat, end: nat)
    requires upTo <= |stages|
  {
    && end == (if upTo == 0 then 0 else stages[upTo - 1].firstLayer + stages[upTo - 1].layerCount)
    && forall i :: 0 <= i < upTo ==> StageIsPlaced(g, stages, i)
  }

  /** Stages that tile all the layers in order, each a legal range. */
  ghost predicate Tiles(g: Geometry, stages: seq<Stage>) {
    |stages| > 0 && Contiguous(g, stages, |stages|, g.layerCount)
  }

  lemma StageIsSegment(g: Geometry, stages: seq<Stage>, i: nat)
    requires Tiles(g, stages) && i < |stages|
    ensures |Boundaries(stages)| == |stages| + 1
    ensures StageSpans(stages[i], Boundaries(stages), i)
    ensures LayerRangeIsValid(g, stages[i].firstLayer, stages[i].layerCount)
  {
    assert StageIsPlaced(g, stages, i);
    if i + 1 < |stages| {
      assert StageIsPlaced(g, stages, i + 1);
    }
  }

  lemma TilesIsCut(g: Geometry, stages: seq<Stage>)
    requires Tiles(g, stages)
    ensures IsCut(g, Boundaries(stages), |stages|, g.layerCount)
  {
    assert StageIsPlaced(g, stages, 0);
    forall i | 0 <= i < |stages| ensures StepIsLegal(g, Boundaries(stages), i) {
      StageIsSegment(g, stages, i);
    }
  }

  /**
   * Read the plan off the recorded splits, last stage first. Every cell visited is finite, so its split
   * is a layer below it and never the sentinel: the "backtrack failed" exit is not reached.
   */
  method Backtrack(g: Geometry, p: Profile, t: Tables) returns (stages: seq<Stage>)
    requires TablesDone(g, p, t, p.stageCount)
    requires p.stageCount > 0
    requires |t.best[p.stageCount]| == g.layerCount + 1
    requires t.best[p.stageCount][g.layerCount] < UNREACHABLE_COST
    ensures |stages| == p.stageCount
    ensures var cuts := Trace(t.splits, p.stageCount, g.layerCount);
      |cuts| == p.stageCount + 1 && forall i :: 0 <= i < p.stageCount ==> StageSpans(stages[i], cuts, i)
  {
    stages := seq(p.stageCount, _ => Stage(0, 0, {}));
    ghost var cuts := Trace(t.splits, p.stageCount, g.layerCount);
    TraceReachesTables(g, p, t, p.stageCount, p.stageCount, g.layerCount);
    var current := g.layerCount;
    for stage := p.stageCount downto 0
      invariant |stages| == p.stageCount
      invariant current == cuts[stage] <= g.layerCount
      invariant cuts[..stage + 1] == Trace(t.splits, stage, current)
      invariant |t.best[stage]| == g.layerCount + 1 && t.best[stage][current] < UNREACHABLE_COST
      invariant forall i :: stage <= i < p.stageCount ==> StageSpans(stages[i], cuts, i)
    {
      CellFacts(g, p, t, p.stageCount, stage + 1, current);
      var split := t.splits[stage + 1][current];
      CellFacts(g, p, t, p.stageCount, stage, split);
      TraceStepsBack(cuts, t.splits, stage, current);
      TraceEnds(t.splits, stage, split, cuts[..stage + 1]);
      stages := stages[stage := Stage(split, current - split, {})];
      current := split;
    }
  }

  // ---- Flags and validation ------------------------------------------------

  /** The flags the planner gives stage `i` of `n`. */
  function StageFlags(g: Geometry, stage: Stage, i: nat, n: nat): set<StageFlag> {
    {InputHidden}
    + (if i + 1 < n then {OutputHidden} else {FinalToken})
    + (if stage.firstLayer == 0 && stage.layerCount >= g.firstRoutedLayer then {DensePrefix} else {})
  }

  lemma FirstLayerGrows(g: Geometry, stages: seq<Stage>, i: nat)
    requires Tiles(g, stages) && 0 < i < |stages|
    ensures stages[i].firstLayer > 0
  {
    assert StageIsPlaced(g, stages, i) && StageIsPlaced(g, stages, i - 1);
  }

  /**
   * Flags of a plan that tiles the layers: every stage takes hidden state, all but the last pass it on, the last
   * gives the token, and the dense prefix is marked on the first stage exactly when it holds all dense layers.
   */
  lemma FlagsAreMeant(g: Geometry, stages: seq<Stage>, i: nat)
    requires Tiles(g, stages) && i < |stages|
    ensures var flags, s := StageFlags(g, stages[i], i, |stages|), stages[i];
      && flags <= {InputHidden, OutputHidden, FinalToken, DensePrefix} && InputHidden in flags
      && (OutputHidden in flags <==> i + 1 < |stages|) && (FinalToken in flags <==> i + 1 == |stages|)
      && (DensePrefix in flags <==>
            i == 0 && LayersBetween(0, g.firstRoutedLayer) <= LayersBetween(s.firstLayer, s.firstLayer + s.layerCount))
  {
    assert StageIsPlaced(g, stages, i);
    if i == 0 {
      var dense, layers := LayersBetween(0, g.firstRoutedLayer), LayersBetween(0, stages[0].layerCount);
      if g.firstRoutedLayer > stages[0].layerCount {
        assert g.firstRoutedLayer - 1 in dense && g.firstRoutedLayer - 1 !in layers;
      }
    } else {
      FirstLayerGrows(g, stages, i);
    }
  }

  method AssignStageFlags(g: Geometry, plan: Plan) returns (flagged: Plan)
    requires plan.stageCount <= |plan.stages|
    ensures flagged == plan.(stages := flagged.stages) && |flagged.stages| == |plan.stages|
    ensures forall i :: 0 <= i < plan.stageCount ==>
      flagged.stages[i] == plan.stages[i].(flags := StageFlags(g, plan.stages[i], i, plan.stageCount))
    ensures flagged.stages[plan.stageCount..] == plan.stages[plan.stageCount..]
  {
    var stages := plan.stages;
    for i := 0 to plan.stageCount
      invariant |stages| == |plan.stages| && stages[i..] == plan.stages[i..]
      invariant forall j :: 0 <= j < i ==>
        stages[j] == plan.stages[j].(flags := StageFlags(g, plan.stages[j], j, plan.stageCount))
    {
      assert stages[i] == stages[i..][0] == plan.stages[i];
      ghost var before := stages;
      stages := stages[i := stages[i].(flags := StageFlags(g, stages[i], i, plan.stageCount))];
      assert stages[i + 1..] == before[i..][1..] == plan.stages[i..][1..] == plan.stages[i + 1..];
    }
    flagged := plan.(stages := stages);
  }

  /** Flags that pass validation: known bits only, and the final-token bit on the last stage alone. */
  ghost predicate FlagsAreValid(flags: set<StageFlag>, i: nat, n: nat) {
    && Unknown !in flags
    && (FinalToken in flags <==> i + 1 == n)
    && (i + 1 < n ==> OutputHidden in flags)
  }

  /** What validation accepts. */
  ghost predicate PlanIsValid(g: Geometry, plan: Plan) {
    && plan.abiVersion == ABI_VERSION
    && plan.descriptorBytes == DESCRIPTOR_BYTES
    && 0 < plan.stageCount <= MAX_STAGE_COUNT
    && plan.stageCount <= |plan.stages|
    && Tiles(g, plan.stages[..plan.stageCount])
    && forall i :: 0 <= i < plan.stageCount ==> FlagsAreValid(plan.stages[i].flags, i, plan.stageCount)
  }

  method Validate(g: Geometry, plan: Plan) returns (r: Result<(), Error>)
    ensures r.Ok? <==> PlanIsValid(g, plan)
  {
    if plan.abiVersion != ABI_VERSION || plan.descriptorBytes != DESCRIPTOR_BYTES {
      return Err(AbiMismatch("stage plan ABI mismatch"));
    }
    if plan.stageCount == 0 || plan.stageCount > MAX_STAGE_COUNT {
      return Err(InvalidArgument("stage count is outside supported range"));
    }
    if |plan.stages| < plan.stageCount {
      return Err(InvalidArgument("stage table holds fewer entries than stage count"));
    }
    var n := plan.stageCount;
    var stages := plan.stages[..n];
    var expectedFirst: nat, finalCount: nat := 0, 0;
    for i := 0 to n
      invariant Contiguous(g, stages, i, expectedFirst)
      invariant forall j :: 0 <= j < i && j + 1 < n ==> FlagsAreValid(stages[j].flags, j, n)
      invariant i == n ==> Unknown !in stages[n - 1].flags
      invariant finalCount == if i == n && FinalToken in stages[n - 1].flags then 1 else 0
    {
      var stage := stages[i];
      assert PlanIsValid(g, plan) ==> StageIsPlaced(g, stages, i) && FlagsAreValid(stage.flags, i, n);
      if Unknown in stage.flags {
        return Err(InvalidArgument("stage contains unknown flags"));
      }
      if stage.firstLayer != expectedFirst {
        return Err(InvalidArgument("stage layers are not contiguous"));
      }
      if !LayerRangeIsValid(g, stage.firstLayer, stage.layerCount) {
        return Err(InvalidArgument("stage layer range violates GLM-5.2 cut rules"));
      }
      if FinalToken in stage.flags {
        finalCount := finalCount + 1;
        if i + 1 != n {
          return Err(InvalidArgument("final-token stage is not the last stage"));
        }
      } else if OutputHidden !in stage.flags {
        return Err(InvalidArgument("non-final stage must emit hidden state"));
      }
      expectedFirst := stage.firstLayer + stage.layerCount;
    }
    assert stages[n - 1] == plan.stages[n - 1];
    if expectedFirst != g.layerCount {
      return Err(InvalidArgument("stage plan does not cover all GLM-5.2 layers"));
    }
    if finalCount != 1 {
      return Err(InvalidArgument("stage plan must contain exactly one final-token stage"));
    }
    return Ok(());
  }

  // ---- The balanced planner ------------------------------------------------

  /** The boundaries of a valid plan. */
  ghost function PlanCuts(plan: Plan): seq<nat> {
    if plan.stageCount <= |plan.stages| then Boundaries(plan.stages[..plan.stageCount]) else []
  }

  /** `plan` is a legal division into `p.stageCount` stages that no other legal division beats. */
  ghost predicate IsOptimal(g: Geometry, p: Profile, plan: Plan) {
    && plan.stageCount == |plan.stages| == p.stageCount
    && g.layerCount <= |p.costs|
    && CutWithin(g, p, PlanCuts(plan), p.stageCount, g.layerCount)
    && forall other :: CutWithin(g, p, other, p.stageCount, g.layerCount) ==>
         WorstCost(p, PlanCuts(plan)) <= WorstCost(p, other)
  }

  lemma SpannedStagesTile(g: Geometry, p: Profile, stages: seq<Stage>, cuts: seq<nat>)
    requires |stages| > 0 && CutWithin(g, p, cuts, |stages|, g.layerCount)
    requires forall i :: 0 <= i < |stages| ==> StageSpans(stages[i], cuts, i)
    ensures Tiles(g, stages) && Boundaries(stages) == cuts
  {
    var n := |stages|;
    forall i | 0 <= i < n ensures StageIsPlaced(g, stages, i) {
      assert StageSpans(stages[i], cuts, i) && StepIsLegal(g, cuts, i);
      assert i > 0 ==> StageSpans(stages[i - 1], cuts, i - 1);
    }
    assert StageSpans(stages[n - 1], cuts, n - 1);
  }

  lemma FlaggedPlanIsValid(g: Geometry, stages: seq<Stage>, plan: Plan)
    requires Tiles(g, stages) && |stages| == |plan.stages| == plan.stageCount <= MAX_STAGE_COUNT
    requires plan.abiVersion == ABI_VERSION && plan.descriptorBytes == DESCRIPTOR_BYTES
    requires forall i :: 0 <= i < |stages| ==>
      plan.stages[i] == stages[i].(flags := StageFlags(g, stages[i], i, |stages|))
    ensures PlanIsValid(g, plan)
    ensures PlanCuts(plan) == Boundaries(stages)
  {
    assert plan.stages[..plan.stageCount] == plan.stages;
    forall i | 0 <= i < |stages| ensures StageIsPlaced(g, plan.stages, i) {
      assert StageIsPlaced(g, stages, i);
    }
    forall i | 0 <= i < |stages|
      ensures FlagsAreValid(plan.stages[i].flags, i, plan.stageCount)
    {
      assert plan.stages[i].flags == StageFlags(g, stages[i], i, |stages|);
    }
  }

  /**
   * The balanced planner. It succeeds exactly when its inputs are acceptable and some legal division
   * costs less than the sentinel; then the plan is optimal and passes validation. Backtracking and
   * validation cannot fail.
   */
  method BuildBalancedWithFinalCost(g: Geometry, costs: seq<nat>, extra: nat, stageCount: nat)
    returns (r: Result<Plan, Error>)
    requires forall i :: 0 <= i < |costs| ==> costs[i] <= U64_MAX
    requires extra <= U64_MAX
    ensures var p := Profile(costs, extra, stageCount);
      r.Ok? <==>
        && 0 < stageCount <= MAX_STAGE_COUNT
        && g.layerCount <= |costs| && CostsFit(costs, g.layerCount)
        && exists cuts :: CutWithin(g, p, cuts, stageCount, g.layerCount) && WorstCost(p, cuts) < UNREACHABLE_COST
    ensures r.Ok? ==>
      IsOptimal(g, Profile(costs, extra, stageCount), r.value) && PlanIsValid(g, r.value)
    ensures r.Ok? ==> WorstCost(Profile(costs, extra, stageCount), PlanCuts(r.value)) < UNREACHABLE_COST
    ensures r.Ok? ==> IsEarliest(g, Profile(costs, extra, stageCount), PlanCuts(r.value))
    ensures r == Err(CUT_RULES_ERROR) ==>
      g.layerCount <= |costs| &&
      forall cuts :: CutWithin(g, Profile(costs, extra, stageCount), cuts, stageCount, g.layerCount) ==>
        WorstCost(Profile(costs, extra, stageCount), cuts) >= UNREACHABLE_COST
    ensures r.Err? ==> r.error.InvalidArgument? || r.error == OVERFLOW_ERROR || r.error == CUT_RULES_ERROR
  {
    if |costs| < g.layerCount || stageCount == 0 || stageCount > MAX_STAGE_COUNT {
      return Err(InvalidArgument("invalid balanced stage-plan input"));
    }
    var p := Profile(costs, extra, stageCount);
    var prefix := PrefixCosts(costs, g.layerCount);
    if prefix.Err? {
      return Err(prefix.error);
    }
    var t := FillTables(g, p, prefix.value);
    CellFacts(g, p, t, stageCount, stageCount, g.layerCount);
    forall cuts | CutWithin(g, p, cuts, stageCount, g.layerCount)
      ensures t.best[stageCount][g.layerCount] <= WorstCost(p, cuts)
    {
      TablesAreLowerBound(g, p, t, stageCount, stageCount, g.layerCount, cuts);
    }
    if t.best[stageCount][g.layerCount] == UNREACHABLE_COST {
      return Err(CUT_RULES_ERROR);
    }
    var stages := Backtrack(g, p, t);
    TraceReachesTables(g, p, t, stageCount, stageCount, g.layerCount);
    TraceIsEarliest(g, p, t, stageCount, stageCount, g.layerCount);
    SpannedStagesTile(g, p, stages, Trace(t.splits, stageCount, g.layerCount));
    var plan := AssignStageFlags(g, Plan(ABI_VERSION, DESCRIPTOR_BYTES, stageCount, stages));
    FlaggedPlanIsValid(g, stages, plan);
    var valid := Validate(g, plan);
    r := match valid case Ok(_) => Ok(plan) case Err(error) => Err(error);
  }

  // ---- The scheduler's critical path ---------------------------------------

  method StageCostNs(costs: seq<nat>, extra: nat, stage: Stage) returns (cost: nat)
    requires stage.firstLayer + stage.layerCount <= |costs|
    ensures cost == Sum(costs, stage.firstLayer, stage.firstLayer + stage.layerCount)
                    + if FinalToken in stage.flags then extra else 0
  {
    cost := 0;
    for layer := stage.firstLayer to stage.firstLayer + stage.layerCount
      invariant cost == Sum(costs, stage.firstLayer, layer)
    {
      cost := cost + costs[layer];
    }
    if FinalToken in stage.flags {
      cost := cost + extra;
    }
  }

  lemma ScaleMax(a: nat, b: nat, scale: nat)
    requires scale > 0
    ensures Max(a, b) * scale == Max(a * scale, b * scale)
  {
    if a < b {
      assert a * scale < b * scale;
    } else {
      assert a * scale >= b * scale;
    }
  }

  lemma WorstCostSteps(g: Geometry, p: Profile, plan: Plan, i: nat)
    requires PlanIsValid(g, plan) && p.stageCount == plan.stageCount && i < plan.stageCount
    requires CutWithin(g, p, PlanCuts(plan), plan.stageCount, g.layerCount)
    ensures plan.stages[i].firstLayer + plan.stages[i].layerCount <= |p.costs|
    ensures var stage := plan.stages[i];
      var cost := Sum(p.costs, stage.firstLayer, stage.firstLayer + stage.layerCount)
                  + if FinalToken in stage.flags then p.extra else 0;
      WorstCost(p, PlanCuts(plan)[..i + 2]) == Max(WorstCost(p, PlanCuts(plan)[..i + 1]), cost)
  {
    var cuts, stages := PlanCuts(plan), plan.stages[..plan.stageCount];
    assert FlagsAreValid(plan.stages[i].flags, i, plan.stageCount);
    StageIsSegment(g, stages, i);
    assert cuts[..i + 2][..i + 1] == cuts[..i + 1];
  }

  /**
   * The scheduler's critical path over a valid plan is the cost of its worst stage, once per prefill
   * block; over a planner's result for one block it is therefore the least cost any division has.
   */
  method PlanCriticalPathNs(g: Geometry, plan: Plan, costs: seq<nat>, extra: nat, prefillBlockCount: nat)
    returns (path: nat)
    requires PlanIsValid(g, plan) && g.layerCount <= |costs|
    ensures CutWithin(g, Profile(costs, extra, plan.stageCount), PlanCuts(plan), plan.stageCount, g.layerCount)
    ensures path == WorstCost(Profile(costs, extra, plan.stageCount), PlanCuts(plan)) * Max(prefillBlockCount, 1)
  {
    var blocks := Max(prefillBlockCount, 1);
    ghost var p, n := Profile(costs, extra, plan.stageCount), plan.stageCount;
    ghost var cuts := PlanCuts(plan);
    TilesIsCut(g, plan.stages[..n]);
    CutStaysWithin(g, p, cuts, n, g.layerCount);
    path := 0;
    ghost var worst: nat := 0;
    for i := 0 to plan.stageCount
      invariant worst == WorstCost(p, cuts[..i + 1])
      invariant path == worst * blocks
    {
      WorstCostSteps(g, p, plan, i);
      var cost := StageCostNs(costs, extra, plan.stages[i]);
      ScaleMax(worst, cost, blocks);
      worst := Max(worst, cost);
      var serviceTime := cost * blocks;
      if serviceTime > path {
        path := serviceTime;
      }
    }
    assert cuts[..n + 1] == cuts;
  }

  datatype EstimateError = PlanFailed(error: Error) | ModuleNotValidated

  /** A plan over positive layer costs has a positive worst stage. */
  lemma WorstCostIsPositive(g: Geometry, p: Profile, cuts: seq<nat>, stages: nat)
    requires CutWithin(g, p, cuts, stages, g.layerCount) && stages > 0
    requires g.layerCount <= |p.costs| && CostsFit(p.costs, g.layerCount)
    ensures WorstCost(p, cuts) > 0
  {
    CutShrinks(g, p, cuts, stages, g.layerCount);
    assert p.costs[g.layerCount - 1] != 0;
  }

  /** `value` is the cost of the worst stage in some legal division, and no legal division does better. */
  ghost predicate IsLeastWorst(g: Geometry, p: Profile, stages: nat, value: nat)
    requires g.layerCount <= |p.costs|
  {
    && (exists cuts :: CutWithin(g, p, cuts, stages, g.layerCount) && WorstCost(p, cuts) == value)
    && (forall cuts :: CutWithin(g, p, cuts, stages, g.layerCount) ==> value <= WorstCost(p, cuts))
  }

  /** The critical path of an optimal plan, for at most one block, is the least worst-stage cost, and is not zero. */
  lemma PathIsLeast(g: Geometry, p: Profile, plan: Plan, stages: nat, blocks: nat, path: nat)
    requires p.stageCount == stages == plan.stageCount > 0 && IsOptimal(g, p, plan) && CostsFit(p.costs, g.layerCount)
    requires blocks <= 1 && path == WorstCost(p, PlanCuts(plan)) * Max(blocks, 1)
    ensures IsLeastWorst(g, p, stages, path) && path > 0
  {
    WorstCostIsPositive(g, p, PlanCuts(plan), stages);
  }

  /**
   * The scheduler's estimate for one decode chunk: plan the layers, then take the plan's critical path.
   * A successful estimate is the least worst-stage cost over all legal divisions, and is never zero.
   */
  method EstimateDecodeChunkNs(g: Geometry, costs: seq<nat>, extra: nat, sparkCount: nat)
    returns (r: Result<nat, EstimateError>)
    requires forall i :: 0 <= i < |costs| ==> costs[i] <= U64_MAX
    requires extra <= U64_MAX
    ensures r.Ok? ==> g.layerCount <= |costs| && IsLeastWorst(g, Profile(costs, extra, sparkCount), sparkCount, r.value)
    ensures r.Err? ==> r.error != ModuleNotValidated
  {
    var plan := BuildBalancedWithFinalCost(g, costs, extra, sparkCount);
    if plan.Err? {
      return Err(PlanFailed(plan.error));
    }
    var path := PlanCriticalPathNs(g, plan.value, costs, extra, 1);
    PathIsLeast(g, Profile(costs, extra, sparkCount), plan.value, sparkCount, 1, path);
    r := if path == 0 then Err(ModuleNotValidated) else Ok(path);
  }
}
