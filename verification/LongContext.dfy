/**
 * Long-context decode selection: which key/value tokens a bounded attention
 * kernel reads. A sink prefix, an evenly strided sample of the middle and the
 * recent tail, written to a caller's buffer and padded to capacity.
 */
module LongContext {
  import opened Arithmetic
  import opened Results

  const INVALID_TOKEN_ID := 0xFFFF_FFFF
  const MAX_SELECTED_TOKEN_CAPACITY := 4096
  const DEFAULT_BLOCK_TOKEN_COUNT := 16
  const DEFAULT_RECENT_TOKEN_COUNT := 1536
  const DEFAULT_SINK_TOKEN_COUNT := 128
  const DEFAULT_STRIDE_SAMPLE_TOKEN_COUNT := 384
  const DEFAULT_LONG_CONTEXT_THRESHOLD := 8192

  /** Bits of the policy flag word; `Unknown` stands for every bit outside the known mask. */
  datatype PolicyFlag =
    | RequireBoundedDecode
    | IncludeSink
    | IncludeStridedMiddle
    | IncludeRecent
    | FailOnContextOverflow
    | AllowFullContextScan
    | Unknown

  const DEFAULT_FLAGS := {RequireBoundedDecode, IncludeSink, IncludeStridedMiddle, IncludeRecent, FailOnContextOverflow}

  datatype PolicyMode = BoundedWindow | FullContextScan

  datatype Policy = Policy(
    mode: PolicyMode,
    flags: set<PolicyFlag>,
    maxContextTokens: nat,
    selectedTokenCapacity: nat,
    blockTokenCount: nat,
    recentTokenCount: nat,
    sinkTokenCount: nat,
    strideSampleTokenCount: nat,
    maximumDecodeScanTokenCount: nat,
    prefillChunkTokenCount: nat,
    longContextThreshold: nat)

  datatype PlanFlag = BoundedSelection | FullScan | LongContextPlan | ContextTruncated | SelectionPadded

  datatype DecodePlan = DecodePlan(
    flags: set<PlanFlag>,
    contextTokenCount: nat,
    selectedTokenCount: nat,
    selectedTokenCapacity: nat,
    paddedTokenCount: nat,
    selectedBlockCount: nat,
    firstRecentTokenIndex: nat,
    sinkTokenCount: nat,
    strideSampleTokenCount: nat,
    recentTokenCount: nat,
    avoidedFullScanTokenReads: nat)

  datatype Error = InvalidArgument | CapacityExceeded

  function OrDefault(value: nat, default: nat): nat { if value == 0 then default else value }

  /** The `0` means default rules, field by field. */
  function Normalized(policy: Policy): Policy {
    policy.(flags := if policy.flags == {} then DEFAULT_FLAGS else policy.flags,
            blockTokenCount := OrDefault(policy.blockTokenCount, DEFAULT_BLOCK_TOKEN_COUNT),
            recentTokenCount := OrDefault(policy.recentTokenCount, DEFAULT_RECENT_TOKEN_COUNT),
            sinkTokenCount := OrDefault(policy.sinkTokenCount, DEFAULT_SINK_TOKEN_COUNT),
            strideSampleTokenCount := OrDefault(policy.strideSampleTokenCount, DEFAULT_STRIDE_SAMPLE_TOKEN_COUNT),
            maximumDecodeScanTokenCount := OrDefault(policy.maximumDecodeScanTokenCount, policy.selectedTokenCapacity),
            prefillChunkTokenCount := OrDefault(policy.prefillChunkTokenCount, policy.selectedTokenCapacity),
            longContextThreshold := OrDefault(policy.longContextThreshold, DEFAULT_LONG_CONTEXT_THRESHOLD))
  }

  predicate IsValid(policy: Policy) {
    var p := Normalized(policy);
    && Unknown !in p.flags
    && p.maxContextTokens != 0
    && 0 < p.selectedTokenCapacity <= MAX_SELECTED_TOKEN_CAPACITY
    && p.blockTokenCount != 0
    && 0 < p.maximumDecodeScanTokenCount <= p.selectedTokenCapacity
    && p.prefillChunkTokenCount != 0
    && !(RequireBoundedDecode in p.flags && p.mode == FullContextScan && AllowFullContextScan !in p.flags)
    && (IncludeSink in p.flags || IncludeStridedMiddle in p.flags || IncludeRecent in p.flags)
  }

  // ---- Arithmetic of the strided sample ------------------------------------

  lemma MulKeepsOrder(a: nat, b: nat, d: nat)
    ensures a <= b ==> a * d <= b * d
  {
  }

  lemma DivAtLeast(x: nat, d: nat, k: nat)
    requires d > 0 && k * d <= x
    ensures k <= x / d
  {
    var q := x / d;
    assert x < (q + 1) * d;
    MulKeepsOrder(q + 1, k, d);
  }

  lemma DivBelow(x: nat, d: nat, k: nat)
    requires d > 0 && x < k * d
    ensures x / d < k
  {
    MulKeepsOrder(k, x / d, d);
  }

  /** Offset of sample `i` of `count` into a middle of `middle` tokens. */
  function StrideOffset(middle: nat, count: nat, i: nat): nat {
    (i + 1) * middle / (count + 1)
  }

  /** With as many samples as middle tokens, sample `i` is token `i`. */
  lemma FullStride(middle: nat, i: nat)
    requires i < middle
    ensures StrideOffset(middle, middle, i) == i
  {
    calc {
      (i + 1) * middle;
      (i + 1) * (middle + 1) - (i + 1);
      { assert (i + 1) * (middle + 1) == i * (middle + 1) + (middle + 1); }
      i * (middle + 1) + (middle - i);
    }
    DivAtLeast((i + 1) * middle, middle + 1, i);
    DivBelow((i + 1) * middle, middle + 1, i + 1);
  }

  /** The samples never collide. */
  lemma StrideIncreases(middle: nat, count: nat, i: nat)
    requires i + 1 < count <= middle
    ensures StrideOffset(middle, count, i) < StrideOffset(middle, count, i + 1)
  {
    if count == middle {
      FullStride(middle, i);
      FullStride(middle, i + 1);
    } else {
      var q := StrideOffset(middle, count, i);
      assert (i + 2) * middle == (i + 1) * middle + middle;
      assert (q + 1) * (count + 1) == q * (count + 1) + (count + 1);
      DivAtLeast((i + 2) * middle, count + 1, q + 1);
    }
  }

  lemma SumLiesBetween(q: nat, r: nat, k: nat, s: nat, n: nat)
    requires r < n && s < n
    ensures (q + k) * n <= (q * n + r) + (k * n + s) < (q + k + 2) * n
  {
    assert (q + k) * n == q * n + k * n;
    assert (q + k + 2) * n == (q + k) * n + 2 * n;
  }

  lemma PartsAdd(x: nat, y: nat, n: nat, q: nat, r: nat, k: nat, s: nat)
    requires r < n && s < n && x == q * n + r && y == k * n + s
    ensures q + k <= (x + y) / n <= q + k + 1
  {
    SumLiesBetween(q, r, k, s, n);
    DivAtLeast(x + y, n, q + k);
    DivBelow(x + y, n, q + k + 2);
  }

  lemma DivIsExact(x: nat, n: nat)
    requires n > 0
    ensures x == x / n * n + x % n && x % n < n
  {
  }

  /** Rounding a sum down gives the sum of the rounded parts, or one more. */
  lemma FloorsAdd(x: nat, y: nat, n: nat)
    requires n > 0
    ensures x / n + y / n <= (x + y) / n <= x / n + y / n + 1
  {
    DivIsExact(x, n);
    DivIsExact(y, n);
    PartsAdd(x, y, n, x / n, x % n, y / n, y % n);
  }

  /** Neighbouring samples lie apart by one of two distances, which differ by one: the samples are evenly spread. */
  lemma StrideIsEven(middle: nat, count: nat, i: nat)
    ensures var gap := StrideOffset(middle, count, i + 1) - StrideOffset(middle, count, i);
      middle / (count + 1) <= gap <= middle / (count + 1) + 1
    ensures StrideOffset(middle, count, 0) == middle / (count + 1)
  {
    assert (i + 2) * middle == (i + 1) * middle + middle;
    FloorsAdd((i + 1) * middle, middle, count + 1);
  }

  /** The samples stay inside the middle, so clamping them never fires. */
  lemma StrideIsInside(middle: nat, count: nat, i: nat)
    requires i < count <= middle
    ensures StrideOffset(middle, count, i) < middle
  {
    MulKeepsOrder(i + 1, count, middle);
    assert middle * (count + 1) == count * middle + middle;
    DivBelow((i + 1) * middle, count + 1, middle);
  }

  // ---- The shape of a bounded selection ------------------------------------

  /** The counts a bounded selection is made of. */
  datatype Shape = Shape(context: nat, capacity: nat, sink: nat, recentBegin: nat, stride: nat)

  ghost predicate WellShaped(s: Shape) {
    && s.sink <= s.recentBegin <= s.context
    && s.sink + s.stride <= s.capacity
    && s.stride <= s.recentBegin - s.sink
    && s.context <= INVALID_TOKEN_ID
  }

  /** How much of the recent tail fits after the sink and the sample. */
  ghost function TailCount(s: Shape): nat
    requires WellShaped(s)
  {
    Min(s.context - s.recentBegin, s.capacity - s.sink - s.stride)
  }

  ghost function SelectionCount(s: Shape): nat
    requires WellShaped(s)
  {
    s.sink + s.stride + TailCount(s)
  }

  /** Element `j` of the selection: sink token, strided sample or tail token. */
  ghost function Selected(s: Shape, j: nat): nat
    requires WellShaped(s)
  {
    if j < s.sink then j
    else if j < s.sink + s.stride then s.sink + StrideOffset(s.recentBegin - s.sink, s.stride, j - s.sink)
    else s.recentBegin + (j - s.sink - s.stride)
  }

  /** A selection is strictly increasing and stays below the context length. */
  lemma SelectedIncreases(s: Shape, j: nat)
    requires WellShaped(s) && j < SelectionCount(s)
    ensures Selected(s, j) < s.context
    ensures j + 1 < SelectionCount(s) ==> Selected(s, j) < Selected(s, j + 1)
  {
    var middle := s.recentBegin - s.sink;
    if s.sink <= j < s.sink + s.stride {
      StrideIsInside(middle, s.stride, j - s.sink);
      if j + 1 < s.sink + s.stride {
        StrideIncreases(middle, s.stride, j - s.sink);
      }
    }
  }

  ghost predicate StrictlyIncreasing(x: seq<nat>) {
    forall i, j :: 0 <= i < j < |x| ==> x[i] < x[j]
  }

  ghost predicate IsSelectionPrefix(s: Shape, x: seq<nat>) {
    && WellShaped(s)
    && |x| <= SelectionCount(s)
    && forall j :: 0 <= j < |x| ==> x[j] == Selected(s, j)
  }

  lemma {:induction false} SelectedOrdered(s: Shape, i: nat, j: nat)
    requires WellShaped(s) && i < j < SelectionCount(s)
    ensures Selected(s, i) < Selected(s, j)
    decreases j
  {
    SelectedIncreases(s, j - 1);
    if i < j - 1 {
      SelectedOrdered(s, i, j - 1);
    }
  }

  lemma PrefixIsOrdered(s: Shape, x: seq<nat>)
    requires IsSelectionPrefix(s, x)
    ensures StrictlyIncreasing(x)
    ensures forall j :: 0 <= j < |x| ==> x[j] < s.context
  {
    forall i, j | 0 <= i < j < |x| ensures x[i] < x[j] {
      SelectedOrdered(s, i, j);
    }
    forall j | 0 <= j < |x| ensures x[j] < s.context {
      SelectedIncreases(s, j);
    }
  }

  /**
   * The whole recent tail is selected exactly when sink, sample and tail fit the capacity together; otherwise
   * it is the newest token that is lost.
   */
  lemma TailIsSelectedIffItFits(s: Shape, x: seq<nat>)
    requires IsSelectionPrefix(s, x) && |x| == SelectionCount(s)
    ensures (forall t :: s.recentBegin <= t < s.context ==> t in x)
            <==> s.sink + s.stride + (s.context - s.recentBegin) <= s.capacity
    ensures s.sink + s.stride + (s.context - s.recentBegin) > s.capacity ==> s.context - 1 !in x
  {
    PrefixIsOrdered(s, x);
    var head := s.sink + s.stride;
    if head + (s.context - s.recentBegin) <= s.capacity {
      forall t | s.recentBegin <= t < s.context ensures t in x {
        assert x[head + (t - s.recentBegin)] == t;
      }
    } else {
      forall j | 0 <= j < |x| ensures x[j] != s.context - 1 {
        if s.sink <= j < head {
          StrideIsInside(s.recentBegin - s.sink, s.stride, j - s.sink);
        }
      }
      var newest := s.context - 1;
      assert s.recentBegin <= newest < s.context && newest !in x;
    }
  }

  // ---- The builders --------------------------------------------------------

  /** Append unless the token is present, the capacity is used up or the token is the sentinel. */
  function AppendUnique(selection: seq<nat>, capacity: nat, token: nat): (r: seq<nat>)
    ensures StrictlyIncreasing(selection) && |selection| < capacity && token < INVALID_TOKEN_ID
            && (selection == [] || selection[|selection| - 1] < token)
            ==> r == selection + [token]
  {
    if |selection| >= capacity || token == INVALID_TOKEN_ID then selection
    else if token in selection then selection
    else selection + [token]
  }

  /** The distinct blocks a selection touches. */
  ghost function BlocksOf(selection: seq<nat>, blockTokenCount: nat): set<nat>
    requires blockTokenCount > 0
  {
    set t | t in selection :: t / blockTokenCount
  }

  lemma BlocksOfAppend(selection: seq<nat>, token: nat, blockTokenCount: nat)
    requires blockTokenCount > 0
    ensures BlocksOf(selection + [token], blockTokenCount)
            == BlocksOf(selection, blockTokenCount) + {token / blockTokenCount}
  {
    var longer := selection + [token];
    assert longer[|selection|] == token && token in longer;
    assert forall t :: t in longer <==> t in selection || t == token;
    var blocks, more := BlocksOf(selection, blockTokenCount), BlocksOf(longer, blockTokenCount);
    assert forall b :: b in more <==> b in blocks || b == token / blockTokenCount;
  }

  /** The first `k` blocks. */
  ghost function FirstBlocks(k: nat): set<nat> {
    if k == 0 then {} else FirstBlocks(k - 1) + {k - 1}
  }

  lemma {:induction false} FirstBlocksAreCounted(k: nat)
    ensures |FirstBlocks(k)| == k && forall b: nat :: b in FirstBlocks(k) <==> b < k
  {
    if k > 0 {
      FirstBlocksAreCounted(k - 1);
    }
  }

  /** The blocks that hold `context` tokens end at or after the context, less than a block later. */
  lemma BlocksCover(context: nat, n: nat)
    requires n > 0
    ensures var k := (context + n - 1) / n; context <= k * n < context + n
  {
    DivIsExact(context + n - 1, n);
  }

  lemma TokenIsBelow(context: nat, n: nat, token: nat)
    requires n > 0 && token < context
    ensures token / n < (context + n - 1) / n
  {
    BlocksCover(context, n);
    DivBelow(token, n, (context + n - 1) / n);
  }

  lemma BlockIsInside(context: nat, n: nat, block: nat)
    requires n > 0 && block < (context + n - 1) / n
    ensures block * n < context && block * n / n == block
  {
    BlocksCover(context, n);
    var k := (context + n - 1) / n;
    assert (block + 1) * n <= k * n;
    assert (block + 1) * n == block * n + n;
    QuotientIsUnique(block * n, n, block, 0);
  }

  /** A whole context touches as many blocks as it fills, the last one perhaps in part. */
  lemma FullBlocksAreCounted(context: nat, n: nat)
    requires n > 0
    ensures |BlocksOf(seq(context, i => i), n)| == (context + n - 1) / n
  {
    var all, blocks := seq(context, i => i), BlocksOf(seq(context, i => i), n);
    var k := (context + n - 1) / n;
    forall b: nat ensures b in blocks <==> b < k {
      if b in blocks {
        var t :| t in all && t / n == b;
        TokenIsBelow(context, n, t);
      }
      if b < k {
        BlockIsInside(context, n, b);
        assert all[b * n] == b * n && b * n in all;
      }
    }
    FirstBlocksAreCounted(k);
    assert blocks == FirstBlocks(k);
  }

  method CountUniqueBlocks(selection: seq<nat>, blockTokenCount: nat) returns (count: nat)
    requires blockTokenCount > 0
    requires forall j :: 0 <= j < |selection| ==> selection[j] != INVALID_TOKEN_ID
    ensures count == |BlocksOf(selection, blockTokenCount)|
  {
    var blocks := {};
    for i := 0 to |selection|
      invariant blocks == BlocksOf(selection[..i], blockTokenCount)
    {
      assert selection[..i + 1] == selection[..i] + [selection[i]];
      BlocksOfAppend(selection[..i], selection[i], blockTokenCount);
      if selection[i] != INVALID_TOKEN_ID {
        blocks := blocks + {selection[i] / blockTokenCount};
      }
    }
    assert selection[..|selection|] == selection;
    count := |blocks|;
  }

  /** Append the next token the shape prescribes. */
  lemma AppendFollowsShape(s: Shape, x: seq<nat>)
    requires IsSelectionPrefix(s, x) && |x| < SelectionCount(s)
    ensures IsSelectionPrefix(s, AppendUnique(x, s.capacity, Selected(s, |x|)))
    ensures |AppendUnique(x, s.capacity, Selected(s, |x|))| == |x| + 1
  {
    PrefixIsOrdered(s, x);
    SelectedIncreases(s, |x|);
    if x != [] {
      SelectedIncreases(s, |x| - 1);
    }
  }

  /** The shape the policy asks for. */
  function ShapeOf(p: Policy, context: nat, capacity: nat): (s: Shape)
    requires context <= INVALID_TOKEN_ID
    ensures WellShaped(s) && s.context == context && s.capacity == capacity
  {
    var sink := if IncludeSink in p.flags then Min(Min(p.sinkTokenCount, context), capacity) else 0;
    var recent := if IncludeRecent in p.flags && sink < capacity
                  then Min(Min(p.recentTokenCount, capacity - sink), context) else 0;
    var recentBegin := if context - recent < sink then sink else context - recent;
    var middle := recentBegin - sink;
    var stride := if IncludeStridedMiddle in p.flags && middle != 0 && sink < capacity
                  then Min(Min(p.strideSampleTokenCount, capacity - sink), middle) else 0;
    Shape(context, capacity, sink, recentBegin, stride)
  }

  /** The first `count` cells hold the selection, the rest of the capacity the sentinel; cells beyond are kept. */
  ghost predicate Written(before: seq<nat>, after: seq<nat>, selection: seq<nat>, capacity: nat) {
    && |selection| <= capacity <= |after| == |before|
    && after[..|selection|] == selection
    && (forall i :: |selection| <= i < capacity ==> after[i] == INVALID_TOKEN_ID)
    && after[capacity..] == before[capacity..]
  }

  method WriteSelection(selection: seq<nat>, capacity: nat, out: array<nat>)
    requires |selection| <= capacity <= out.Length
    modifies out
    ensures Written(old(out[..]), out[..], selection, capacity)
  {
    for i := 0 to |selection|
      invariant out[..i] == selection[..i]
      invariant forall j :: i <= j < out.Length ==> out[j] == old(out[j])
    {
      out[i] := selection[i];
    }
    for i := |selection| to capacity
      invariant out[..|selection|] == selection
      invariant forall j :: |selection| <= j < i ==> out[j] == INVALID_TOKEN_ID
      invariant forall j :: capacity <= j < out.Length ==> out[j] == old(out[j])
    {
      out[i] := INVALID_TOKEN_ID;
    }
  }

  /** Sample the middle at equal strides. */
  method AppendStrided(p: Policy, s: Shape, sinks: seq<nat>) returns (selection: seq<nat>)
    requires 0 < s.context <= INVALID_TOKEN_ID && s == ShapeOf(p, s.context, s.capacity)
    requires IsSelectionPrefix(s, sinks) && |sinks| == s.sink
    ensures IsSelectionPrefix(s, selection) && |selection| == s.sink + s.stride
  {
    selection := sinks;
    var middle := s.recentBegin - s.sink;
    for i := 0 to s.stride
      invariant IsSelectionPrefix(s, selection) && |selection| == s.sink + i
    {
      StrideIsInside(middle, s.stride, i);
      AppendFollowsShape(s, selection);
      var token := s.sink + (i + 1) * middle / (s.stride + 1);
      // The clamp to the middle's last token.
      token := if token >= s.recentBegin then s.recentBegin - 1 else token;
      selection := AppendUnique(selection, s.capacity, token);
    }
  }

  /** Take the recent tail, as far as it fits. */
  method AppendRecent(p: Policy, s: Shape, earlier: seq<nat>) returns (selection: seq<nat>)
    requires 0 < s.context <= INVALID_TOKEN_ID && s == ShapeOf(p, s.context, s.capacity)
    requires IsSelectionPrefix(s, earlier) && |earlier| == s.sink + s.stride
    ensures IsSelectionPrefix(s, selection) && |selection| == SelectionCount(s)
  {
    selection := earlier;
    for token := s.recentBegin to s.context
      invariant IsSelectionPrefix(s, selection)
      invariant |selection| == s.sink + s.stride + (token - s.recentBegin)
    {
      if |selection| >= s.capacity {
        break;
      }
      AppendFollowsShape(s, selection);
      selection := AppendUnique(selection, s.capacity, token);
    }
  }

  method SelectBounded(p: Policy, context: nat, capacity: nat) returns (selection: seq<nat>, s: Shape)
    requires 0 < context <= INVALID_TOKEN_ID
    ensures s == ShapeOf(p, context, capacity)
    ensures IsSelectionPrefix(s, selection) && |selection| == SelectionCount(s)
  {
    s := ShapeOf(p, context, capacity);
    selection := [];
    for token := 0 to s.sink
      invariant IsSelectionPrefix(s, selection) && |selection| == token
    {
      AppendFollowsShape(s, selection);
      selection := AppendUnique(selection, capacity, token);
    }
    selection := AppendStrided(p, s, selection);
    selection := AppendRecent(p, s, selection);
  }

  /** The plan that goes with a bounded selection. */
  ghost function BoundedPlan(p: Policy, s: Shape, selection: seq<nat>, flags: set<PlanFlag>): DecodePlan
    requires p.blockTokenCount > 0 && |selection| <= s.capacity && s.recentBegin <= s.context
  {
    var count := |selection|;
    DecodePlan(
      flags + {BoundedSelection}
        + (if count < s.capacity then {SelectionPadded} else {})
        + (if s.context > count then {ContextTruncated} else {}),
      s.context, count, s.capacity, s.capacity - count, |BlocksOf(selection, p.blockTokenCount)|,
      s.recentBegin, s.sink, s.stride, s.context - s.recentBegin,
      if s.context > count then s.context - count else 0)
  }

  /**
   * A plan describes a selection: its counts, the blocks it touches, and its flags, each set exactly when it should
   * be.
   */
  ghost predicate Describes(p: Policy, context: nat, capacity: nat, selection: seq<nat>, plan: DecodePlan)
    requires p.blockTokenCount > 0
  {
    && plan.contextTokenCount == context && plan.selectedTokenCount == |selection| <= capacity
    && plan.selectedTokenCapacity == capacity && plan.paddedTokenCount == capacity - |selection|
    && plan.selectedBlockCount == |BlocksOf(selection, p.blockTokenCount)|
    && plan.avoidedFullScanTokenReads == context - |selection|
    && (LongContextPlan in plan.flags <==> context >= p.longContextThreshold)
    && (SelectionPadded in plan.flags <==> |selection| < capacity)
    && (ContextTruncated in plan.flags <==> |selection| < context)
    && (FullScan in plan.flags <==> p.mode == FullContextScan)
    && (BoundedSelection in plan.flags <==> p.mode != FullContextScan)
  }

  /** The flags that do not depend on the selection. */
  function BaseFlags(p: Policy, context: nat): set<PlanFlag> {
    if context >= p.longContextThreshold then {LongContextPlan} else {}
  }

  lemma {:induction false} IncreasingIsShort(s: seq<nat>, bound: nat)
    requires StrictlyIncreasing(s) && forall j :: 0 <= j < |s| ==> s[j] < bound
    ensures |s| <= bound
  {
    if s != [] {
      var last := |s| - 1;
      IncreasingIsShort(s[..last], s[last]);
    }
  }

  lemma PlanDescribes(p: Policy, s: Shape, selection: seq<nat>)
    requires p.blockTokenCount > 0 && p.mode != FullContextScan
    requires |selection| <= s.capacity && |selection| <= s.context && s.recentBegin <= s.context
    ensures Describes(p, s.context, s.capacity, selection, BoundedPlan(p, s, selection, BaseFlags(p, s.context)))
  {
  }

  /** The plan of a bounded selection describes it. */
  lemma BoundedIsDescribed(p: Policy, context: nat, capacity: nat, selection: seq<nat>)
    requires p.blockTokenCount > 0 && p.mode != FullContextScan && 0 < context <= INVALID_TOKEN_ID
    requires var s := ShapeOf(p, context, capacity);
      IsSelectionPrefix(s, selection) && |selection| == SelectionCount(s)
    ensures var s := ShapeOf(p, context, capacity);
      Describes(p, context, capacity, selection, BoundedPlan(p, s, selection, BaseFlags(p, context)))
  {
    assert |selection| <= context by {
      PrefixIsOrdered(ShapeOf(p, context, capacity), selection);
      IncreasingIsShort(selection, context);
    }
    PlanDescribes(p, ShapeOf(p, context, capacity), selection);
  }

  method BuildBoundedSelection(p: Policy, context: nat, capacity: nat, out: array<nat>, flags: set<PlanFlag>)
    returns (plan: DecodePlan, ghost selection: seq<nat>)
    requires 0 < context <= INVALID_TOKEN_ID && capacity <= out.Length
    requires p.blockTokenCount > 0
    modifies out
    ensures IsSelectionPrefix(ShapeOf(p, context, capacity), selection)
    ensures |selection| == SelectionCount(ShapeOf(p, context, capacity))
    ensures Written(old(out[..]), out[..], selection, capacity)
    ensures plan == BoundedPlan(p, ShapeOf(p, context, capacity), selection, flags)
  {
    var chosen, s := SelectBounded(p, context, capacity);
    selection := chosen;
    PrefixIsOrdered(s, chosen);
    WriteSelection(chosen, capacity, out);
    var count := |chosen|;
    var blocks := CountUniqueBlocks(chosen, p.blockTokenCount);
    plan := DecodePlan(
      flags + {BoundedSelection}
        + (if count < capacity then {SelectionPadded} else {})
        + (if context > count then {ContextTruncated} else {}),
      context, count, capacity, capacity - count, blocks, s.recentBegin, s.sink, s.stride, context - s.recentBegin,
      if context > count then context - count else 0);
  }

  /** The full context, in order, padded to capacity. */
  method BuildFullSelection(p: Policy, context: nat, capacity: nat, out: array<nat>, flags: set<PlanFlag>)
    returns (r: Result<DecodePlan, Error>)
    requires capacity <= out.Length && p.blockTokenCount > 0
    modifies out
    ensures r.Ok? <==> context <= capacity && context <= p.maximumDecodeScanTokenCount
    ensures r.Err? ==> r.error == CapacityExceeded && out[..] == old(out[..])
    ensures r.Ok? ==> Written(old(out[..]), out[..], seq(context, i => i), capacity)
    ensures r.Ok? && flags == BaseFlags(p, context) ==>
      Describes(p, context, capacity, seq(context, i => i), r.value)
    ensures r.Ok? ==>
      && r.value.firstRecentTokenIndex == r.value.sinkTokenCount == 0
      && r.value.strideSampleTokenCount == r.value.recentTokenCount == 0
  {
    if context > capacity || context > p.maximumDecodeScanTokenCount {
      return Err(CapacityExceeded);
    }
    WriteSelection(seq(context, i => i), capacity, out);
    var blocks := (context + p.blockTokenCount - 1) / p.blockTokenCount;
    FullBlocksAreCounted(context, p.blockTokenCount);
    return Ok(DecodePlan(
      flags
        + (if context < capacity then {SelectionPadded} else {})
        + (if p.mode == FullContextScan then {FullScan} else {BoundedSelection}),
      context, context, capacity, capacity - context, blocks, 0, 0, 0, 0, 0));
  }

  /** The selection a decode step asks for, whichever builder makes it. */
  ghost predicate IsDecodeSelection(context: nat, selection: seq<nat>) {
    StrictlyIncreasing(selection) && forall j :: 0 <= j < |selection| ==> selection[j] < context
  }

  /** Whether the full context is selected rather than a bounded sample of it. */
  ghost predicate SelectsFully(p: Policy, context: nat, capacity: nat) {
    p.mode == FullContextScan || (context <= capacity && context <= p.maximumDecodeScanTokenCount)
  }

  /** The capacity in use: the caller's buffer, clamped to the policy's. */
  function Capacity(p: Policy, length: nat): nat { Min(length, p.selectedTokenCapacity) }

  /** The inputs a decode selection is refused for before anything is written. */
  ghost predicate Refused(policy: Policy, context: nat, length: nat) {
    var p := Normalized(policy);
    || context == 0 || length == 0 || !IsValid(policy)
    || (context > p.maxContextTokens && FailOnContextOverflow in p.flags)
    || (p.mode == FullContextScan && AllowFullContextScan !in p.flags)
  }

  /**
   * One decode step's selection. On success the buffer holds a strictly increasing list of context tokens,
   * padded exactly to the clamped capacity; it fails exactly when refused, when a full scan does not fit, or
   * when a bounded selection exceeds the scan budget.
   */
  method BuildDecodeSelection(policy: Policy, context: nat, out: array<nat>)
    returns (r: Result<DecodePlan, Error>, ghost selection: seq<nat>)
    requires context <= INVALID_TOKEN_ID
    modifies out
    ensures r.Ok? ==> Written(old(out[..]), out[..], selection, Capacity(Normalized(policy), out.Length))
    ensures r.Ok? ==> IsDecodeSelection(context, selection)
    ensures r.Ok? ==> |selection| <= Normalized(policy).maximumDecodeScanTokenCount
    ensures r.Ok? ==>
      var p := Normalized(policy);
      && p.blockTokenCount > 0 && Describes(p, context, Capacity(p, out.Length), selection, r.value)
    ensures Refused(policy, context, out.Length) ==> r.Err? && out[..] == old(out[..])
    ensures !Refused(policy, context, out.Length) ==>
      var p := Normalized(policy);
      var capacity := Capacity(p, out.Length);
      if SelectsFully(p, context, capacity) then
        && (r.Ok? <==> context <= capacity && context <= p.maximumDecodeScanTokenCount)
        && (r.Ok? ==> selection == seq(context, i => i))
      else
        && (r.Ok? <==> SelectionCount(ShapeOf(p, context, capacity)) <= p.maximumDecodeScanTokenCount)
        && IsSelectionPrefix(ShapeOf(p, context, capacity), selection)
        && |selection| == SelectionCount(ShapeOf(p, context, capacity))
  {
    selection := [];
    if context == 0 || out.Length == 0 {
      return Err(InvalidArgument), selection;
    }
    if !IsValid(policy) {
      return Err(InvalidArgument), selection;
    }
    var p := Normalized(policy);
    var capacity := Capacity(p, out.Length);
    if context > p.maxContextTokens && FailOnContextOverflow in p.flags {
      return Err(CapacityExceeded), selection;
    }
    var flags := BaseFlags(p, context);
    if p.mode == FullContextScan && AllowFullContextScan !in p.flags {
      return Err(InvalidArgument), selection;
    }
    if p.mode == FullContextScan || (context <= capacity && context <= p.maximumDecodeScanTokenCount) {
      r := BuildFullSelection(p, context, capacity, out, flags);
      selection := seq(context, i => i);
      return;
    }
    var plan;
    plan, selection := BuildBoundedSelection(p, context, capacity, out, flags);
    PrefixIsOrdered(ShapeOf(p, context, capacity), selection);
    BoundedIsDescribed(p, context, capacity, selection);
    r := if plan.selectedTokenCount > p.maximumDecodeScanTokenCount then Err(CapacityExceeded) else Ok(plan);
  }

  /**
   * A bounded selection can lose the newest token: a four-token window over nine context tokens spends its last
   * free cell on a middle sample.
   */
  lemma NewestTokenCanBeLost(x: seq<nat>)
    requires var p := Policy(BoundedWindow, DEFAULT_FLAGS, 100, 4, 16, 2, 1, 2, 4, 4, 8192);
      var s := ShapeOf(Normalized(p), 9, 4);
      IsValid(p) && IsSelectionPrefix(s, x) && |x| == SelectionCount(s)
    ensures 8 !in x
  {
    var p := Policy(BoundedWindow, DEFAULT_FLAGS, 100, 4, 16, 2, 1, 2, 4, 4, 8192);
    TailIsSelectedIffItFits(ShapeOf(Normalized(p), 9, 4), x);
  }
}
