/**
 * The firing-row allocator: base rows first, then fixed probe grants, then draft
 * rows one at a time by largest marginal value. The greedy phase is shown to be
 * optimal among all ways of handing out the rows it was given.
 */
module RowAllocator {
  import opened Arithmetic

  const MILLI := 1000
  const ALPHA_CEILING := 999
  const PROBE_ROWS := 2

  datatype SlotInput = SlotInput(commitEmaMilli: nat, maximumDraftDepth: nat, probe: nat)

  /** The acceptance probability in thousandths, `(ema - 1000) / ema` clamped to 0 .. 999. */
  function AlphaMilli(commitEmaMilli: nat): (alpha: nat)
    ensures alpha <= ALPHA_CEILING
    ensures alpha == 0 <==> commitEmaMilli * (MILLI - 1) < MILLI * MILLI
    ensures commitEmaMilli > MILLI ==> alpha * commitEmaMilli <= (commitEmaMilli - MILLI) * MILLI
    ensures commitEmaMilli > MILLI && alpha < ALPHA_CEILING ==>
      (commitEmaMilli - MILLI) * MILLI < (alpha + 1) * commitEmaMilli
  {
    if commitEmaMilli <= MILLI then 0
    else
      var alpha := (commitEmaMilli - MILLI) * MILLI / commitEmaMilli;
      Min(alpha, ALPHA_CEILING)
  }

  /** Value of a slot's draft row after `granted` earlier ones: alpha to the depth, per unit of cost. */
  function Marginal(alpha: nat, cost: nat, granted: nat): nat
    requires cost > 0
  {
    if granted == 0 then alpha * MILLI / cost
    else Marginal(alpha, cost, granted - 1) * alpha / MILLI
  }

  function SlotMarginal(slot: SlotInput, cost: nat, granted: nat): nat
    requires cost > 0
  {
    Marginal(AlphaMilli(slot.commitEmaMilli), cost, granted)
  }

  lemma ScaleDown(value: nat, alpha: nat)
    requires alpha <= MILLI
    ensures value * alpha / MILLI <= value
  {
    assert value * alpha <= value * MILLI;
  }

  /** The first row is worth alpha per unit of cost, each further one alpha of the row before, rounded down. */
  lemma MarginalIsRounded(alpha: nat, cost: nat, granted: nat)
    requires cost > 0
    ensures Marginal(alpha, cost, 0) * cost <= alpha * MILLI < (Marginal(alpha, cost, 0) + 1) * cost
    ensures var row, next := Marginal(alpha, cost, granted), Marginal(alpha, cost, granted + 1);
      next * MILLI <= row * alpha < (next + 1) * MILLI
  {
  }

  /** Deeper rows are never worth more. */
  lemma {:induction false} MarginalDecreases(alpha: nat, cost: nat, shallow: nat, deep: nat)
    requires cost > 0 && alpha <= ALPHA_CEILING && shallow <= deep
    ensures Marginal(alpha, cost, deep) <= Marginal(alpha, cost, shallow)
    decreases deep
  {
    if shallow < deep {
      MarginalDecreases(alpha, cost, shallow, deep - 1);
      ScaleDown(Marginal(alpha, cost, deep - 1), alpha);
    }
  }

  // ---- Totals --------------------------------------------------------------

  /** Value of a slot's first `rows` draft rows. */
  ghost function SlotValue(slot: SlotInput, cost: nat, rows: nat): nat
    requires cost > 0
  {
    if rows == 0 then 0 else SlotValue(slot, cost, rows - 1) + SlotMarginal(slot, cost, rows - 1)
  }

  /** Value of the draft rows `x` hands to the non-probing slots. */
  ghost function TotalValue(slots: seq<SlotInput>, cost: nat, x: seq<nat>): nat
    requires cost > 0 && |x| == |slots|
  {
    var n := |slots|;
    if n == 0 then 0
    else TotalValue(slots[..n - 1], cost, x[..n - 1])
         + if slots[n - 1].probe != 0 then 0 else SlotValue(slots[n - 1], cost, x[n - 1])
  }

  /** Number of draft rows `x` hands to the non-probing slots. */
  ghost function CompetingRows(slots: seq<SlotInput>, x: seq<nat>): nat
    requires |x| == |slots|
  {
    var n := |slots|;
    if n == 0 then 0
    else CompetingRows(slots[..n - 1], x[..n - 1]) + if slots[n - 1].probe != 0 then 0 else x[n - 1]
  }

  ghost function SumRows(x: seq<nat>): nat {
    if x == [] then 0 else SumRows(x[..|x| - 1]) + x[|x| - 1]
  }

  lemma {:induction false} SumRowsUpdate(x: seq<nat>, k: nat, more: nat)
    requires k < |x|
    ensures SumRows(x[k := x[k] + more]) == SumRows(x) + more
  {
    var n := |x|;
    var y := x[k := x[k] + more];
    if k == n - 1 {
      assert y[..n - 1] == x[..n - 1];
    } else {
      SumRowsUpdate(x[..n - 1], k, more);
      assert y[..n - 1] == x[..n - 1][k := x[k] + more];
    }
  }

  lemma {:induction false} CompetingRowsUpdate(slots: seq<SlotInput>, x: seq<nat>, k: nat)
    requires k < |x| == |slots| && slots[k].probe == 0
    ensures CompetingRows(slots, x[k := x[k] + 1]) == CompetingRows(slots, x) + 1
  {
    var n := |x|;
    var y := x[k := x[k] + 1];
    if k == n - 1 {
      assert y[..n - 1] == x[..n - 1];
    } else {
      CompetingRowsUpdate(slots[..n - 1], x[..n - 1], k);
      assert y[..n - 1] == x[..n - 1][k := x[k] + 1];
    }
  }

  lemma {:induction false} CompetingRowsStartAtZero(slots: seq<SlotInput>, x: seq<nat>)
    requires |x| == |slots|
    requires forall i :: 0 <= i < |slots| && slots[i].probe == 0 ==> x[i] == 0
    ensures CompetingRows(slots, x) == 0
  {
    if |slots| > 0 {
      CompetingRowsStartAtZero(slots[..|slots| - 1], x[..|slots| - 1]);
    }
  }

  // ---- Optimality of the greedy phase --------------------------------------

  /** A way to hand at most `rows` draft rows to the non-probing slots within their depth limits. */
  ghost predicate Feasible(slots: seq<SlotInput>, rows: nat, x: seq<nat>) {
    && |x| == |slots|
    && (forall i :: 0 <= i < |slots| && slots[i].probe == 0 ==> x[i] <= slots[i].maximumDraftDepth)
    && CompetingRows(slots, x) <= rows
  }

  /** No way of handing out `rows` rows within the depth limits is worth more than `b`. */
  ghost predicate IsOptimal(slots: seq<SlotInput>, cost: nat, rows: nat, b: seq<nat>)
    requires cost > 0
  {
    && Feasible(slots, rows, b)
    && forall x :: Feasible(slots, rows, x) ==> TotalValue(slots, cost, x) <= TotalValue(slots, cost, b)
  }

  /** Slot `slot` with `b` rows: its last row is worth at least `price`, its next one at most `price`. */
  ghost predicate PricedSlot(slot: SlotInput, cost: nat, b: nat, price: nat)
    requires cost > 0
  {
    && b <= slot.maximumDraftDepth
    && (b > 0 ==> SlotMarginal(slot, cost, b - 1) >= price)
    && (b < slot.maximumDraftDepth ==> SlotMarginal(slot, cost, b) <= price)
  }

  ghost predicate Priced(slots: seq<SlotInput>, cost: nat, b: seq<nat>, price: nat)
    requires cost > 0
  {
    |b| == |slots| && forall i :: 0 <= i < |slots| && slots[i].probe == 0 ==> PricedSlot(slots[i], cost, b[i], price)
  }

  lemma Distribute(a: int, b: int, c: int)
    ensures a * (b + c) == a * b + a * c
  {
  }

  /** Moving a slot from `b` to `x` rows gains at most `price` per row. */
  lemma {:induction false} SlotGainIsBounded(slot: SlotInput, cost: nat, b: nat, x: nat, price: nat)
    requires cost > 0 && PricedSlot(slot, cost, b, price) && x <= slot.maximumDraftDepth
    ensures SlotValue(slot, cost, x) <= SlotValue(slot, cost, b) + price * (x - b)
    decreases if x < b then b - x else x - b
  {
    var alpha := AlphaMilli(slot.commitEmaMilli);
    if x < b {
      SlotGainIsBounded(slot, cost, b, x + 1, price);
      MarginalDecreases(alpha, cost, x, b - 1);
      Distribute(price, x as int - b, 1);
    } else if b < x {
      SlotGainIsBounded(slot, cost, b, x - 1, price);
      MarginalDecreases(alpha, cost, b, x - 1);
      Distribute(price, x - 1 - b, 1);
    }
  }

  lemma {:induction false} GainIsBounded(slots: seq<SlotInput>, cost: nat, b: seq<nat>, x: seq<nat>, price: nat)
    requires cost > 0 && Priced(slots, cost, b, price) && |x| == |slots|
    requires forall i :: 0 <= i < |slots| && slots[i].probe == 0 ==> x[i] <= slots[i].maximumDraftDepth
    ensures TotalValue(slots, cost, x)
            <= TotalValue(slots, cost, b) + price * (CompetingRows(slots, x) - CompetingRows(slots, b))
  {
    var n := |slots|;
    if n > 0 {
      var slots', b', x' := slots[..n - 1], b[..n - 1], x[..n - 1];
      GainIsBounded(slots', cost, b', x', price);
      if slots[n - 1].probe == 0 {
        SlotGainIsBounded(slots[n - 1], cost, b[n - 1], x[n - 1], price);
        var d: int := CompetingRows(slots', x') - CompetingRows(slots', b');
        Distribute(price, d, x[n - 1] as int - b[n - 1]);
      }
    }
  }

  lemma NoGain(price: nat, rows: int)
    requires price == 0 || rows <= 0
    ensures price * rows <= 0
  {
  }

  /**
   * Budgets with one price for every slot are optimal when the rows are used up, or when the price is
   * zero: no feasible hand-out is worth more.
   */
  lemma PricedIsOptimal(slots: seq<SlotInput>, cost: nat, rows: nat, b: seq<nat>, price: nat)
    requires cost > 0 && Priced(slots, cost, b, price)
    requires CompetingRows(slots, b) <= rows
    requires price == 0 || CompetingRows(slots, b) == rows
    ensures IsOptimal(slots, cost, rows, b)
  {
    forall i | 0 <= i < |slots| && slots[i].probe == 0 ensures b[i] <= slots[i].maximumDraftDepth {
      assert PricedSlot(slots[i], cost, b[i], price);
    }
    forall x | Feasible(slots, rows, x) ensures TotalValue(slots, cost, x) <= TotalValue(slots, cost, b) {
      GainIsBounded(slots, cost, b, x, price);
      NoGain(price, CompetingRows(slots, x) - CompetingRows(slots, b));
    }
  }

  // ---- The three phases ----------------------------------------------------

  /** What a probing slot is entitled to. */
  function ProbeGrant(slot: SlotInput): nat {
    if slot.probe == 0 then 0 else Min(PROBE_ROWS, slot.maximumDraftDepth)
  }

  /** Probe grants in slot order: full grants until the rows run out, nothing afterwards. */
  ghost predicate ProbesGranted(slots: seq<SlotInput>, budgets: seq<nat>, remaining: nat, upTo: nat)
    requires upTo <= |slots| == |budgets|
  {
    && (forall i :: 0 <= i < upTo ==> budgets[i] <= ProbeGrant(slots[i]))
    && (forall i :: upTo <= i < |slots| ==> budgets[i] == 0)
    && (remaining > 0 ==> forall i :: 0 <= i < upTo ==> budgets[i] == ProbeGrant(slots[i]))
    && (forall i, j :: 0 <= i < j < |slots| && i < upTo && budgets[i] < ProbeGrant(slots[i]) ==> budgets[j] == 0)
  }

  /** Granting slot `i`, or passing it over, carries the grants one slot further. */
  lemma ProbeStep(slots: seq<SlotInput>, before: seq<nat>, after: seq<nat>, remaining: nat, grant: nat, i: nat)
    requires i < |slots| == |before| && grant <= remaining && remaining > 0
    requires ProbesGranted(slots, before, remaining, i)
    requires after == before[i := grant] && grant == Min(ProbeGrant(slots[i]), remaining)
    ensures ProbesGranted(slots, after, remaining - grant, i + 1)
  {
  }

  lemma {:induction false} SumRowsOfZeros(x: seq<nat>)
    requires forall i :: 0 <= i < |x| ==> x[i] == 0
    ensures SumRows(x) == 0
  {
    if x != [] {
      SumRowsOfZeros(x[..|x| - 1]);
    }
  }

  method GrantProbes(slots: seq<SlotInput>, rows: nat, budgets: array<nat>) returns (remaining: nat)
    requires budgets.Length == |slots|
    requires forall i :: 0 <= i < |slots| ==> budgets[i] == 0
    modifies budgets
    ensures ProbesGranted(slots, budgets[..], remaining, |slots|)
    ensures remaining + SumRows(budgets[..]) == rows
  {
    remaining := rows;
    SumRowsOfZeros(budgets[..]);
    for i := 0 to |slots|
      invariant ProbesGranted(slots, budgets[..], remaining, i)
      invariant remaining + SumRows(budgets[..]) == rows
    {
      if remaining == 0 {
        return;
      }
      ghost var before := budgets[..];
      if slots[i].probe == 0 || slots[i].maximumDraftDepth == 0 {
        assert before == before[i := 0];
        ProbeStep(slots, before, before, remaining, 0, i);
        continue;
      }
      var grant := Min(Min(PROBE_ROWS, slots[i].maximumDraftDepth), remaining);
      SumRowsUpdate(before, i, grant);
      budgets[i] := grant;
      assert budgets[..] == before[i := grant];
      ProbeStep(slots, before, budgets[..], remaining, grant, i);
      remaining := remaining - grant;
    }
  }

  /** The value scan recomputes a slot's next marginal from its current grant count. */
  method NextMarginal(alpha: nat, cost: nat, granted: nat) returns (value: nat)
    requires cost > 0
    ensures value == Marginal(alpha, cost, granted)
  {
    value := alpha * MILLI / cost;
    for d := 0 to granted
      invariant value == Marginal(alpha, cost, d)
    {
      value := value * alpha / MILLI;
    }
  }

  /** Whether slot `i` competes for a further row. */
  ghost predicate Competes(slots: seq<SlotInput>, b: seq<nat>, i: nat)
    requires i < |slots| == |b|
  {
    slots[i].probe == 0 && b[i] < slots[i].maximumDraftDepth
  }

  /** The slot with the most valuable next row, the lowest index among equals. */
  method BestSlot(slots: seq<SlotInput>, cost: nat, b: seq<nat>) returns (best: nat, value: nat)
    requires cost > 0 && |b| == |slots|
    ensures value == 0 <==> best == |slots|
    ensures best <= |slots|
    ensures best < |slots| ==> Competes(slots, b, best) && value == SlotMarginal(slots[best], cost, b[best])
    ensures forall i :: 0 <= i < |slots| && Competes(slots, b, i) ==> SlotMarginal(slots[i], cost, b[i]) <= value
    ensures forall i :: 0 <= i < best && Competes(slots, b, i) ==>
      SlotMarginal(slots[i], cost, b[i]) < value || value == 0
  {
    best, value := |slots|, 0;
    for i := 0 to |slots|
      invariant value == 0 <==> best == |slots|
      invariant best < |slots| ==> best < i
      invariant best <= |slots|
      invariant best < |slots| ==> Competes(slots, b, best) && value == SlotMarginal(slots[best], cost, b[best])
      invariant forall k :: 0 <= k < i && Competes(slots, b, k) ==> SlotMarginal(slots[k], cost, b[k]) <= value
      invariant forall k :: 0 <= k < best && k < i && Competes(slots, b, k) ==>
        SlotMarginal(slots[k], cost, b[k]) < value || value == 0
    {
      if slots[i].probe != 0 || b[i] >= slots[i].maximumDraftDepth {
        continue;
      }
      var alpha := AlphaMilli(slots[i].commitEmaMilli);
      if alpha == 0 {
        MarginalDecreases(alpha, cost, 0, b[i]);
        continue;
      }
      var v := NextMarginal(alpha, cost, b[i]);
      if v > value {
        best, value := i, v;
      }
    }
  }

  function EffectiveCost(specRowRelativeCostMilli: nat): (cost: nat)
    ensures cost > 0
  {
    if specRowRelativeCostMilli == 0 then MILLI else specRowRelativeCostMilli
  }

  lemma {:induction false} ProductGrows(q: nat, d: nat)
    requires d > 0
    ensures q <= q * d
  {
    if d > 1 {
      ProductGrows(q, d - 1);
      Distribute(q, d - 1, 1);
    }
  }

  lemma QuotientShrinks(n: nat, d: nat)
    requires d > 0
    ensures n / d <= n
  {
    ProductGrows(n / d, d);
    assert n == n / d * d + n % d;
  }

  lemma FirstMarginalIsBounded(alpha: nat, cost: nat)
    requires cost > 0 && alpha <= ALPHA_CEILING
    ensures alpha * MILLI / cost <= ALPHA_CEILING * MILLI
  {
    QuotientShrinks(alpha * MILLI, cost);
  }

  lemma StartIsPriced(slots: seq<SlotInput>, cost: nat, b: seq<nat>)
    requires cost > 0 && |b| == |slots|
    requires forall i :: 0 <= i < |slots| && slots[i].probe == 0 ==> b[i] == 0
    ensures Priced(slots, cost, b, ALPHA_CEILING * MILLI)
  {
    forall i | 0 <= i < |slots| && slots[i].probe == 0
      ensures PricedSlot(slots[i], cost, b[i], ALPHA_CEILING * MILLI)
    {
      FirstMarginalIsBounded(AlphaMilli(slots[i].commitEmaMilli), cost);
    }
  }

  lemma ZeroIsPriced(slots: seq<SlotInput>, cost: nat, b: seq<nat>, price: nat)
    requires cost > 0 && Priced(slots, cost, b, price)
    requires forall i :: 0 <= i < |slots| && Competes(slots, b, i) ==> SlotMarginal(slots[i], cost, b[i]) == 0
    ensures Priced(slots, cost, b, 0)
  {
    forall i | 0 <= i < |slots| && slots[i].probe == 0 ensures PricedSlot(slots[i], cost, b[i], 0) {
      assert PricedSlot(slots[i], cost, b[i], price);
      assert b[i] < slots[i].maximumDraftDepth ==> Competes(slots, b, i);
    }
  }

  lemma GrantKeepsPrice(slots: seq<SlotInput>, cost: nat, b: seq<nat>, best: nat, price: nat)
    requires cost > 0 && Priced(slots, cost, b, price)
    requires best < |slots| && Competes(slots, b, best)
    requires forall i :: 0 <= i < |slots| && Competes(slots, b, i) ==>
      SlotMarginal(slots[i], cost, b[i]) <= SlotMarginal(slots[best], cost, b[best])
    ensures Priced(slots, cost, b[best := b[best] + 1], SlotMarginal(slots[best], cost, b[best]))
  {
    var lower := SlotMarginal(slots[best], cost, b[best]);
    var after := b[best := b[best] + 1];
    assert PricedSlot(slots[best], cost, b[best], price);
    forall i | 0 <= i < |slots| && slots[i].probe == 0 ensures PricedSlot(slots[i], cost, after[i], lower) {
      assert PricedSlot(slots[i], cost, b[i], price);
      if i == best {
        MarginalDecreases(AlphaMilli(slots[i].commitEmaMilli), cost, b[i], b[i] + 1);
      } else {
        assert b[i] < slots[i].maximumDraftDepth ==> Competes(slots, b, i);
      }
    }
  }

  /**
   * The greedy phase hands out rows one at a time. Its budgets differ from the ones it was given only at
   * non-probing slots, stay within depth limits and the row count, and no feasible hand-out is worth more.
   */
  method GreedyGrant(slots: seq<SlotInput>, rows: nat, specRowRelativeCostMilli: nat, budgets: array<nat>)
    requires budgets.Length == |slots|
    requires forall i :: 0 <= i < |slots| && slots[i].probe == 0 ==> budgets[i] == 0
    modifies budgets
    ensures forall i :: 0 <= i < |slots| && slots[i].probe != 0 ==> budgets[i] == old(budgets[i])
    ensures SumRows(budgets[..]) <= old(SumRows(budgets[..])) + rows
    ensures var cost := if specRowRelativeCostMilli == 0 then MILLI else specRowRelativeCostMilli;
      IsOptimal(slots, cost, rows, budgets[..])
  {
    var cost := EffectiveCost(specRowRelativeCostMilli);
    var remaining := rows;
    ghost var price: nat := ALPHA_CEILING * MILLI;
    CompetingRowsStartAtZero(slots, budgets[..]);
    StartIsPriced(slots, cost, budgets[..]);
    while remaining != 0
      invariant 0 <= remaining <= rows
      invariant Priced(slots, cost, budgets[..], price)
      invariant CompetingRows(slots, budgets[..]) + remaining == rows
      invariant SumRows(budgets[..]) + remaining == old(SumRows(budgets[..])) + rows
      invariant forall i :: 0 <= i < |slots| && slots[i].probe != 0 ==> budgets[i] == old(budgets[i])
    {
      var best, value := BestSlot(slots, cost, budgets[..]);
      if best == |slots| || value == 0 {
        ZeroIsPriced(slots, cost, budgets[..], price);
        price := 0;
        break;
      }
      ghost var before := budgets[..];
      GrantKeepsPrice(slots, cost, before, best, price);
      CompetingRowsUpdate(slots, before, best);
      SumRowsUpdate(before, best, 1);
      budgets[best] := budgets[best] + 1;
      assert budgets[..] == before[best := before[best] + 1];
      price := value;
      remaining := remaining - 1;
    }
    PricedIsOptimal(slots, cost, rows, budgets[..], price);
  }

  method SumBudgets(budgets: array<nat>) returns (total: nat)
    ensures total == SumRows(budgets[..])
  {
    total := 0;
    for i := 0 to budgets.Length
      invariant total == SumRows(budgets[..i])
    {
      assert budgets[..i + 1][..i] == budgets[..i];
      total := total + budgets[i];
    }
    assert budgets[..budgets.Length] == budgets[..];
  }

  /** `budgets` spends `rows` rows: `probes` in slot order first, and what they leave optimally. */
  ghost predicate SpendsRows(slots: seq<SlotInput>, cost: nat, rows: nat, probes: seq<nat>, left: nat,
                             budgets: seq<nat>)
    requires cost > 0 && |budgets| == |slots|
  {
    && |probes| == |slots|
    && ProbesGranted(slots, probes, left, |slots|)
    && SumRows(probes) + left == rows
    && (forall i :: 0 <= i < |slots| && slots[i].probe != 0 ==> budgets[i] == probes[i])
    && IsOptimal(slots, cost, left, budgets)
  }

  /**
   * The whole allocation: the returned total never exceeds the cap, every base row comes first, probes are
   * served in slot order, and the rest is spent optimally. A zero cap leaves the output untouched.
   */
  method RowAllocatorAssign(slots: seq<SlotInput>, firingRowCap: nat, specRowRelativeCostMilli: nat,
                            budgets: array<nat>)
    returns (total: nat, ghost probes: seq<nat>, ghost left: nat)
    requires budgets.Length == |slots|
    modifies budgets
    ensures firingRowCap == 0 ==> total == 0 && budgets[..] == old(budgets[..])
    ensures firingRowCap > 0 ==> total == Min(|slots|, firingRowCap) + SumRows(budgets[..])
    ensures total <= firingRowCap
    ensures firingRowCap > 0 ==>
      var cost := if specRowRelativeCostMilli == 0 then MILLI else specRowRelativeCostMilli;
      SpendsRows(slots, cost, firingRowCap - Min(|slots|, firingRowCap), probes, left, budgets[..])
  {
    if firingRowCap == 0 {
      return 0, [], 0;
    }
    for i := 0 to |slots|
      invariant forall k :: 0 <= k < i ==> budgets[k] == 0
    {
      budgets[i] := 0;
    }
    var baseRows := Min(|slots|, firingRowCap);
    var remaining := GrantProbes(slots, firingRowCap - baseRows, budgets);
    probes, left := budgets[..], remaining;
    assert forall i :: 0 <= i < |slots| ==> probes[i] <= ProbeGrant(slots[i]);
    GreedyGrant(slots, remaining, specRowRelativeCostMilli, budgets);
    var drafts := SumBudgets(budgets);
    total := baseRows + drafts;
  }
}
