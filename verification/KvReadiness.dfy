/**
 * Readiness and data: in what state, and with what data, a slot finds the block it
 * is bound to, and that binding one slot leaves every other block as ready as it
 * was, with the data it had. A block that has been written out counts as resident,
 * because it is faulted back in complete.
 */
module KvReadiness {
  import opened KvIndex
  import opened KvView
  import opened KvSealed

  /** The readiness of a block, wherever it is. */
  ghost function StateOf(v: View, bk: KvKey): EntryState {
    if bk !in v.blk then Missing
    else if v.blk[bk].onGpu && v.blk[bk].physical < |v.states| then v.states[v.blk[bk].physical]
    else Resident
  }

  /** The data of a block, wherever it is. */
  ghost function DataOf(v: View, bk: KvKey): nat
    requires bk in v.blk
  {
    if v.blk[bk].onGpu then At(v.gpu, v.blk[bk].physical) else At(v.disk, v.blk[bk].backing)
  }

  /** A backing copy that counts as valid has the data of the block. */
  ghost predicate IsClean(v: View, bk: KvKey) {
    && bk in v.blk
    && (v.blk[bk].onGpu && v.blk[bk].backingValid ==>
          At(v.disk, v.blk[bk].backing) == At(v.gpu, v.blk[bk].physical))
  }

  /** A clean block `bk` of `v` has become block `k` of `w`, clean and with its data. */
  ghost predicate LivesOn(v: View, bk: KvKey, w: View, k: KvKey) {
    IsClean(v, bk) ==> IsClean(w, k) && DataOf(w, k) == DataOf(v, bk)
  }

  /** Every block of `w`, those in `but` apart, was there before, is as ready as it was and has its data. */
  ghost predicate KeepsReadiness(v: View, w: View, but: set<KvKey>) {
    forall bk :: bk in w.blk && bk !in but ==> bk in v.blk && StateOf(w, bk) == StateOf(v, bk) && LivesOn(v, bk, w, bk)
  }

  /** The block whose readiness and data a slot finds: one with the key, else the one it takes along, if any. */
  ghost function Source(v: View, dk: KvKey, bk: KvKey): KvKey {
    var target := Target(v, dk, bk);
    if target !in v.blk && dk in v.dir && v.dir[dk] in v.blk && v.blk[v.dir[dk]].refs == 1 then v.dir[dk] else target
  }

  ghost function FoundState(v: View, dk: KvKey, bk: KvKey): EntryState {
    StateOf(v, Source(v, dk, bk))
  }

  /**
   * Slot `dk`, asked for `bk`, ends on a block with readiness `s` and the data it finds; all other blocks are as
   * ready as they were and have their data.
   */
  ghost predicate Readies(v: View, w: View, dk: KvKey, bk: KvKey, s: EntryState) {
    var target, source := Target(v, dk, bk), Source(v, dk, bk);
    && target in w.blk && StateOf(w, target) == s && KeepsReadiness(v, w, {target})
    && LivesOn(v, source, w, target) && (source !in v.blk ==> IsClean(w, target))
  }

  // ---- One step ------------------------------------------------------------

  lemma KeepsChain(u: View, v: View, w: View, first: set<KvKey>, second: set<KvKey>, but: set<KvKey>)
    requires KeepsReadiness(u, v, first) && KeepsReadiness(v, w, second) && first <= but && second <= but
    ensures KeepsReadiness(u, w, but)
  {
    forall k | k in w.blk && k !in but ensures k in u.blk && StateOf(w, k) == StateOf(u, k) && LivesOn(u, k, w, k) {
      assert StateOf(w, k) == StateOf(v, k) && LivesOn(v, k, w, k);
    }
  }

  /** Readiness and data do not depend on the directory. */
  lemma DirectoryIsNoData(v: View, w: View)
    requires w == v.(dir := w.dir)
    ensures KeepsReadiness(v, w, {})
    ensures forall bk :: bk in v.blk ==> StateOf(w, bk) == StateOf(v, bk) && LivesOn(v, bk, w, bk)
    ensures forall bk :: IsClean(v, bk) ==> IsClean(w, bk)
  {
  }

  /** No two blocks have the same backing slot. */
  ghost predicate BackingsApart(v: View) {
    v.backingCapacity > 0 ==> forall a, b :: a in v.blk && b in v.blk && v.blk[a].backing == v.blk[b].backing ==> a == b
  }

  /** Spilling a block leaves all data where it is found: a copy is written unless a valid one is there. */
  lemma SpillKeepsReadiness(v: View, bk: KvKey)
    requires Placement(v) && BackingsApart(v) && Evictable(v, bk)
    ensures KeepsReadiness(v, Spilled(v, bk), {})
  {
    var w := Spilled(v, bk);
    forall k | k in w.blk ensures k in v.blk && StateOf(w, k) == StateOf(v, k) && LivesOn(v, k, w, k) {
      assert BlockStored(v, k) && BlockStored(v, bk);
    }
  }

  lemma SweepKeepsReadiness(v: View, w: View)
    requires Placement(v) && BackingsApart(v) && Sweeps(v, w)
    ensures KeepsReadiness(v, w, {}) && w.blk.Keys == v.blk.Keys
  {
    if w != v {
      var bk :| Evictable(v, bk) && w == Spilled(v, bk);
      SpillKeepsReadiness(v, bk);
    }
  }

  lemma AdmitKeepsReadiness(v: View, bk: KvKey, p: nat, backing: nat)
    requires Placement(v) && bk !in v.blk && IsFree(v, p)
    ensures var w := Admitted(v, bk, p, backing);
      KeepsReadiness(v, w, {bk}) && StateOf(w, bk) == Missing && IsClean(w, bk)
  {
    var w := Admitted(v, bk, p, backing);
    forall k | k in w.blk && k != bk ensures k in v.blk && StateOf(w, k) == StateOf(v, k) && LivesOn(v, k, w, k) {
      assert BlockStored(v, k);
    }
  }

  lemma AdmitAfterSweepReadiness(v: View, u: View, bk: KvKey, p: nat, backing: nat)
    requires Placement(v) && BackingsApart(v) && bk !in v.blk && Sweeps(v, u) && IsFree(u, p) && Shaped(u)
    ensures var w := Admitted(u, bk, p, backing);
      KeepsReadiness(v, w, {bk}) && StateOf(w, bk) == Missing && IsClean(w, bk)
  {
    SweepKeepsPlacement(v, u);
    SweepKeepsReadiness(v, u);
    AdmitKeepsReadiness(u, bk, p, backing);
    KeepsChain(v, u, Admitted(u, bk, p, backing), {}, {bk}, {bk});
  }

  lemma SharedReadiness(v: View, bk: KvKey, refs: nat)
    requires bk in v.blk
    ensures var w := WithRefs(v, bk, refs);
      KeepsReadiness(v, w, {bk}) && StateOf(w, bk) == StateOf(v, bk) && LivesOn(v, bk, w, bk)
  {
  }

  lemma FreeListIsNoData(v: View, free: seq<nat>, w: View, but: set<KvKey>)
    requires KeepsReadiness(v.(freeList := free), w, but)
    ensures KeepsReadiness(v, w, but)
  {
    var v' := v.(freeList := free);
    forall k | k in w.blk && k !in but ensures k in v.blk && StateOf(w, k) == StateOf(v, k) && LivesOn(v, k, w, k) {
      assert StateOf(w, k) == StateOf(v', k) && LivesOn(v', k, w, k);
    }
  }

  /** A block just admitted is missing, and a shared one as ready as it was, with its data. */
  lemma ResolvedReadiness(v: View, w: View, bk: KvKey)
    requires Placement(v) && BackingsApart(v) && Resolved(v, w, bk)
    ensures KeepsReadiness(v, w, {bk}) && bk in w.blk && StateOf(w, bk) == StateOf(v, bk)
    ensures LivesOn(v, bk, w, bk) && (bk !in v.blk ==> IsClean(w, bk))
  {
    if bk !in v.blk {
      var v' := v.(freeList := Rest(v));
      var u: View, p: nat :| Sweeps(v', u) && IsFree(u, p) && Shaped(u) && w == Admitted(u, bk, p, NextBacking(v));
      PlacementIgnoresFreeList(v, Rest(v));
      AdmitAfterSweepReadiness(v', u, bk, p, NextBacking(v));
      FreeListIsNoData(v, Rest(v), w, {bk});
    } else {
      SharedReadiness(v, bk, v.blk[bk].refs + 1);
    }
  }

  lemma DroppedReadiness(v: View, bk: KvKey)
    requires Placement(v) && BlockStored(v, bk)
    ensures KeepsReadiness(v, Dropped(v, bk), {})
  {
    var w := Dropped(v, bk);
    forall k | k in w.blk ensures k in v.blk && StateOf(w, k) == StateOf(v, k) && LivesOn(v, k, w, k) {
      assert BlockStored(v, k);
    }
  }

  lemma RekeyedReadiness(v: View, from: KvKey, bk: KvKey)
    requires Placement(v) && BlockStored(v, from) && bk !in v.blk
    ensures var w := Rekeyed(v, from, bk);
      KeepsReadiness(v, w, {bk}) && bk in w.blk && StateOf(w, bk) == StateOf(v, from) && LivesOn(v, from, w, bk)
  {
  }

  lemma FaultedReadiness(v: View, bk: KvKey, p: nat)
    requires Placement(v) && bk in v.blk && !v.blk[bk].onGpu && IsFree(v, p)
    ensures KeepsReadiness(v, Faulted(v, bk, p), {}) && Faulted(v, bk, p).blk.Keys == v.blk.Keys
  {
    var w := Faulted(v, bk, p);
    forall k | k in w.blk ensures k in v.blk && StateOf(w, k) == StateOf(v, k) && LivesOn(v, k, w, k) {
      assert BlockStored(v, k);
    }
  }

  lemma ResidentReadiness(v: View, w: View, bk: KvKey, p: nat)
    requires Placement(v) && BackingsApart(v) && MadeResident(v, w, bk, p)
    ensures KeepsReadiness(v, w, {}) && w.blk.Keys == v.blk.Keys
  {
    if !v.blk[bk].onGpu {
      var u: View :| Sweeps(v, u) && IsFree(u, p) && Shaped(u) && bk in u.blk && w == Faulted(u, bk, p);
      SweepKeepsReadiness(v, u);
      SweptBlockStaysSwapped(v, u, bk);
      SweepKeepsPlacement(v, u);
      FaultedReadiness(u, bk, p);
      KeepsChain(v, u, w, {}, {}, {});
    }
  }

  // ---- Binding a slot ------------------------------------------------------

  lemma InsertReadies(v: View, w: View, dk: KvKey, bk: KvKey)
    requires Coherent(v) && Inserted(v, w, dk, bk) && dk !in v.dir
    ensures Readies(v, w, dk, bk, FoundState(v, dk, bk))
  {
    OpenCoherent(v);
    var m: View :| Resolved(v, m, bk) && w == m.(dir := v.dir[dk := bk]);
    ResolvedReadiness(v, m, bk);
    DirectoryIsNoData(m, w);
    KeepsChain(v, m, w, {bk}, {}, {bk});
    assert StateOf(w, bk) == StateOf(m, bk) && LivesOn(m, bk, w, bk);
  }

  lemma MoveReadies(v: View, m: View, w: View, dk: KvKey, bk: KvKey)
    requires Placement(m) && KeepsReadiness(v, m, {bk}) && bk in m.blk && StateOf(m, bk) == StateOf(v, bk)
    requires LivesOn(v, bk, m, bk) && (bk !in v.blk ==> IsClean(m, bk)) && dk in v.dir && bk != v.dir[dk]
    requires v.dir[dk] in v.blk && (bk in v.blk || v.blk[v.dir[dk]].refs > 1) && !IsPinned(v, v.dir[dk])
    requires BlockStored(m, v.dir[dk]) && w == Dropped(m, v.dir[dk]).(dir := v.dir[dk := bk])
    ensures Readies(v, w, dk, bk, FoundState(v, dk, bk))
  {
    DroppedReadiness(m, v.dir[dk]);
    var n := Dropped(m, v.dir[dk]);
    assert bk in n.blk && LivesOn(m, bk, n, bk);
    DirectoryIsNoData(n, w);
    KeepsChain(v, m, n, {bk}, {}, {bk});
    KeepsChain(v, n, w, {bk}, {}, {bk});
  }

  /** Whichever way a slot is rebound, it finds the readiness foreseen and disturbs no other block's. */
  lemma PromoteReadies(v: View, w: View, dk: KvKey, bk: KvKey)
    requires Coherent(v) && dk in v.dir && bk != v.dir[dk] && !bk.IsEmpty()
    requires BlockStored(v, v.dir[dk]) && Promoted(v, w, dk, bk)
    ensures Readies(v, w, dk, bk, FoundState(v, dk, bk))
  {
    OpenCoherent(v);
    var from := v.dir[dk];
    if !IsPinned(v, from) {
      if bk !in v.blk && v.blk[from].refs == 1 {
        var n := Rekeyed(v, from, bk);
        RekeyedReadiness(v, from, bk);
        forall k | k in w.blk ensures k in n.blk && StateOf(w, k) == StateOf(n, k) && LivesOn(n, k, w, k) {
        }
      } else {
        NamedIsCounted(v.dir, dk);
        var m: View :| Resolved(v, m, bk) && BlockStored(m, from) && w == Dropped(m, from).(dir := v.dir[dk := bk]);
        ResolvedKeeps(v, m, bk);
        ResolvedReadiness(v, m, bk);
        MoveReadies(v, m, w, dk, bk);
      }
    }
  }

  lemma ReadiesThenKeeps(v: View, m: View, w: View, dk: KvKey, bk: KvKey, s: EntryState)
    requires Readies(v, m, dk, bk, s) && KeepsReadiness(m, w, {}) && w.blk.Keys == m.blk.Keys
    ensures Readies(v, w, dk, bk, s)
  {
    forall k | k in w.blk ensures StateOf(w, k) == StateOf(m, k) && LivesOn(m, k, w, k) {
    }
  }

  // ---- Over sealed invariants ----------------------------------------------

  lemma ResidentIsAsReady(v: View, w: View, bk: KvKey, p: nat)
    requires Coherent(v) && MadeResident(v, w, bk, p)
    ensures KeepsReadiness(v, w, {}) && w.blk.Keys == v.blk.Keys
  {
    OpenCoherent(v);
    ResidentReadiness(v, w, bk, p);
  }

  lemma SweptIsAsReady(v: View, w: View)
    requires Coherent(v) && Sweeps(v, w)
    ensures KeepsReadiness(v, w, {}) && w.blk.Keys == v.blk.Keys
  {
    OpenCoherent(v);
    SweepKeepsReadiness(v, w);
  }

  lemma AlreadyReady(v: View, dk: KvKey, bk: KvKey)
    requires dk in v.dir && v.dir[dk] == bk && bk in v.blk
    ensures Readies(v, v, dk, bk, FoundState(v, dk, bk))
  {
  }

  /** Setting the state of the slot a block sits in settles that block's readiness and no other's. */
  lemma StateIsSet(v: View, m: View, w: View, dk: KvKey, bk: KvKey, p: nat, s: EntryState)
    requires Coherent(m) && Readies(v, m, dk, bk, FoundState(v, dk, bk)) && Live(m, Target(v, dk, bk), p)
    requires |m.states| == |m.lastUsed| && w == m.(states := m.states[p := s])
    ensures Readies(v, w, dk, bk, s) && FoundState(v, dk, bk) == m.states[p]
  {
    var target := Target(v, dk, bk);
    OpenCoherent(m);
    forall k | k in w.blk && k != target ensures k in v.blk && StateOf(w, k) == StateOf(v, k) && LivesOn(v, k, w, k) {
      assert BlockStored(m, k) && BlockStored(m, target) && StateOf(m, k) == StateOf(v, k) && LivesOn(v, k, m, k);
    }
  }

  // ---- Over many slots -----------------------------------------------------

  /** The keys that slots in `slots` name. */
  ghost function NamedBy(dir: map<KvKey, KvKey>, slots: set<KvKey>): set<KvKey> {
    set dk | dk in slots && dk in dir :: dir[dk]
  }

  ghost predicate SameSlot(before: map<KvKey, KvKey>, after: map<KvKey, KvKey>, dk: KvKey) {
    (dk in after <==> dk in before) && (dk in before ==> after[dk] == before[dk])
  }

  /** Every valid backing copy has the data of its block. */
  ghost predicate AllClean(v: View) {
    forall bk :: bk in v.blk ==> IsClean(v, bk)
  }

  /** A slot that stays bound to its block, when that was clean, finds it clean and with its data. */
  ghost predicate KeepsData(v: View, w: View, dk: KvKey) {
    dk in v.dir && dk in w.dir && w.dir[dk] == v.dir[dk] ==> LivesOn(v, v.dir[dk], w, v.dir[dk])
  }

  /**
   * Only slots in `slots` may be bound anew, and only the blocks they name may change their readiness. Every slot
   * that stays bound to its block finds its data, and valid backing copies stay true ones.
   */
  ghost predicate Disturbs(v: View, w: View, slots: set<KvKey>) {
    && (forall dk :: dk !in slots ==> SameSlot(v.dir, w.dir, dk))
    && KeepsReadiness(v, w, NamedBy(w.dir, slots))
    && (forall dk :: KeepsData(v, w, dk))
    && (AllClean(v) ==> AllClean(w))
  }

  ghost function DisturbanceSeal(v: View, w: View, slots: set<KvKey>, depth: nat): nat {
    if depth > 0 then DisturbanceSeal(v, w, slots, depth - 1) else if Disturbs(v, w, slots) then 1 else 0
  }

  /** `Disturbs`, sealed behind a recursion the verifier does not unroll. */
  ghost predicate Undisturbed(v: View, w: View, slots: set<KvKey>) {
    DisturbanceSeal(v, w, slots, |v.states| + 2) == 1
  }

  lemma {:induction false} UnsealDisturbance(v: View, w: View, slots: set<KvKey>, depth: nat)
    ensures DisturbanceSeal(v, w, slots, depth) == 1 <==> Disturbs(v, w, slots)
  {
    if depth > 0 {
      UnsealDisturbance(v, w, slots, depth - 1);
    }
  }

  lemma OpenUndisturbed(v: View, w: View, slots: set<KvKey>)
    ensures Undisturbed(v, w, slots) <==> Disturbs(v, w, slots)
  {
    UnsealDisturbance(v, w, slots, |v.states| + 2);
  }

  lemma NothingDisturbed(v: View)
    ensures Undisturbed(v, v, {})
  {
    OpenUndisturbed(v, v, {});
  }

  lemma UndisturbedGrows(v: View, w: View, slots: set<KvKey>, more: set<KvKey>)
    requires Undisturbed(v, w, slots) && slots <= more
    ensures Undisturbed(v, w, more)
  {
    OpenUndisturbed(v, w, slots);
    OpenUndisturbed(v, w, more);
    assert NamedBy(w.dir, slots) <= NamedBy(w.dir, more);
  }

  /** Binding one slot disturbs that slot alone. */
  lemma BindingDisturbs(v: View, w: View, dk: KvKey, bk: KvKey, s: EntryState)
    requires Coherent(v) && Coherent(w) && Readies(v, w, dk, bk, s) && w.dir == v.dir[dk := Target(v, dk, bk)]
    ensures Undisturbed(v, w, {dk})
  {
    var target := Target(v, dk, bk);
    OpenUndisturbed(v, w, {dk});
    assert NamedBy(w.dir, {dk}) == {target};
    forall k ensures KeepsData(v, w, k) {
      if k in v.dir && k in w.dir && w.dir[k] == v.dir[k] {
        BoundSlot(v, k);
        BoundSlot(w, k);
      }
    }
  }

  /** What stays the same does not depend on the epoch, and in an empty state on nothing. */
  lemma UndisturbedSame(u: View, v: View, w: View, slots: set<KvKey>)
    requires Undisturbed(u, w, slots) && v.blk == u.blk && v.dir == u.dir
    requires (u.blk == map[] && u.dir == map[]) || v == u.(epoch := v.epoch)
    ensures Undisturbed(v, w, slots)
  {
    OpenUndisturbed(u, w, slots);
    OpenUndisturbed(v, w, slots);
    forall k | k in u.blk ensures StateOf(u, k) == StateOf(v, k) && (IsClean(u, k) <==> IsClean(v, k)) {
    }
    forall dk ensures KeepsData(v, w, dk) {
      assert KeepsData(u, w, dk);
    }
  }

  lemma DataChain(u: View, v: View, w: View, first: set<KvKey>, second: set<KvKey>, dk: KvKey)
    requires Disturbs(u, v, first) && Disturbs(v, w, second) && first !! second
    ensures KeepsData(u, w, dk)
  {
    assert KeepsData(u, v, dk) && KeepsData(v, w, dk);
    assert dk !in first ==> SameSlot(u.dir, v.dir, dk);
    assert dk !in second ==> SameSlot(v.dir, w.dir, dk);
  }

  /** One disturbance after another, of other slots, disturbs the slots of both. */
  lemma UndisturbedChain(u: View, v: View, w: View, first: set<KvKey>, second: set<KvKey>)
    requires Undisturbed(u, v, first) && Undisturbed(v, w, second) && first !! second
    ensures Undisturbed(u, w, first + second)
  {
    OpenUndisturbed(u, v, first);
    OpenUndisturbed(v, w, second);
    OpenUndisturbed(u, w, first + second);
    forall dk | dk !in first + second ensures SameSlot(u.dir, w.dir, dk) {
      assert SameSlot(u.dir, v.dir, dk) && SameSlot(v.dir, w.dir, dk);
    }
    forall dk ensures KeepsData(u, w, dk) {
      DataChain(u, v, w, first, second, dk);
    }
    var but := NamedBy(w.dir, first + second);
    forall k | k in w.blk && k !in but ensures k in u.blk && StateOf(w, k) == StateOf(u, k) && LivesOn(u, k, w, k) {
      forall dk | dk in first && dk in v.dir ensures v.dir[dk] != k {
        assert SameSlot(v.dir, w.dir, dk);
      }
      assert StateOf(w, k) == StateOf(v, k) && LivesOn(v, k, w, k);
    }
  }
}
