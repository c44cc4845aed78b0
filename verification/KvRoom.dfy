/**
 * What binding and placing a block needs of the directory: a slot, a record, a
 * backing slot and a physical slot to claim. Each condition is one on the state
 * before, and one cell of a table uses up at most one of each.
 */
module KvRoom {
  import opened Sequences
  import opened KvIndex
  import opened KvView
  import opened KvSealed

  /** A slot the sweep stops at: free, or holding a block it may spill. */
  ghost predicate Claimable(v: View, p: nat) {
    && Shaped(v) && p < |v.keys| && PinCount(v, p) == 0
    && (v.keys[p].IsEmpty() || (Evictable(v, v.keys[p]) && v.blk[v.keys[p]].physical == p))
  }

  ghost predicate HasClaim(v: View) {
    exists p: nat :: Claimable(v, p)
  }

  /** A block is there, or there is room for a record and a backing slot, and a slot to claim. */
  ghost predicate CanResolve(v: View, bk: KvKey, limit: nat) {
    bk in v.blk || (|v.blk| < limit && (v.backingCapacity > 0 ==> v.freeList != []) && HasClaim(v))
  }

  /**
   * The slot can be bound: a new one within the directory's limit; a bound one may also stay or take its block along.
   */
  ghost predicate CanBind(v: View, dk: KvKey, bk: KvKey, slots: nat, limit: nat) {
    if dk !in v.dir then |v.dir| < slots && CanResolve(v, bk, limit)
    else
      || v.dir[dk] == bk || IsPinned(v, v.dir[dk]) || CanResolve(v, bk, limit)
      || (v.dir[dk] in v.blk && v.blk[v.dir[dk]].refs == 1)
  }

  ghost predicate Placeable(v: View, bk: KvKey) {
    bk in v.blk && (v.blk[bk].onGpu || HasClaim(v))
  }

  /** The block a slot leaves frees its physical slot. */
  ghost predicate FreesASlot(v: View, dk: KvKey) {
    dk in v.dir && v.dir[dk] in v.blk && v.blk[v.dir[dk]].refs == 1 && v.blk[v.dir[dk]].onGpu
  }

  /** Once bound, the block is on the GPU or can be brought there. */
  ghost predicate CanPlace(v: View, dk: KvKey, bk: KvKey) {
    if dk in v.dir && v.dir[dk] != bk && IsPinned(v, v.dir[dk]) then true
    else if bk in v.blk then v.blk[bk].onGpu || HasClaim(v) || (dk in v.dir && v.dir[dk] != bk && FreesASlot(v, dk))
    else if dk in v.dir && v.dir[dk] in v.blk && v.blk[v.dir[dk]].refs == 1 then v.blk[v.dir[dk]].onGpu || HasClaim(v)
    else true
  }

  ghost predicate CanAcquire(v: View, dk: KvKey, bk: KvKey, slots: nat, limit: nat) {
    CanBind(v, dk, bk, slots, limit) && CanPlace(v, dk, bk)
  }

  // ---- Claims --------------------------------------------------------------

  /** Every claimable slot stays so, except the one in which `bk` now sits. */
  ghost predicate Thrifty(v: View, w: View, bk: KvKey) {
    forall p: nat :: Claimable(v, p) ==> Claimable(w, p) || Live(w, bk, p)
  }

  ghost predicate SameClaims(v: View, w: View) {
    forall p: nat :: Claimable(w, p) <==> Claimable(v, p)
  }

  lemma SweepKeepsClaims(v: View, w: View)
    requires Placement(v) && Sweeps(v, w)
    ensures forall p: nat :: Claimable(v, p) ==> Claimable(w, p)
  {
    if w != v {
      var bk :| Evictable(v, bk) && w == Spilled(v, bk);
      assert BlockStored(v, bk);
      forall p: nat | Claimable(v, p) ensures Claimable(w, p) {
        if p != v.blk[bk].physical && !v.keys[p].IsEmpty() {
          assert BlockStored(v, v.keys[p]);
        }
      }
    }
  }

  lemma SameClaim(v: View, w: View)
    requires SameClaims(v, w)
    ensures HasClaim(w) <==> HasClaim(v)
  {
    if p: nat :| Claimable(v, p) {
      assert Claimable(w, p);
    }
  }

  lemma ClaimsIgnoreFreeList(v: View, free: seq<nat>)
    ensures HasClaim(v.(freeList := free)) <==> HasClaim(v)
  {
    var w := v.(freeList := free);
    assert forall p: nat :: Claimable(w, p) <==> Claimable(v, p);
    SameClaim(v, w);
  }

  lemma RefsKeepClaims(v: View, bk: KvKey, refs: nat)
    requires bk in v.blk
    ensures SameClaims(v, WithRefs(v, bk, refs))
  {
  }

  lemma AdmitKeepsClaims(v: View, bk: KvKey, p: nat, backing: nat)
    requires Placement(v) && bk !in v.blk && IsFree(v, p)
    ensures Thrifty(v, Admitted(v, bk, p, backing), bk)
  {
    var w := Admitted(v, bk, p, backing);
    forall q: nat | Claimable(v, q) && q != p ensures Claimable(w, q) {
      if !v.keys[q].IsEmpty() {
        assert BlockStored(v, v.keys[q]);
      }
    }
  }

  lemma FaultKeepsClaims(v: View, bk: KvKey, p: nat)
    requires Placement(v) && bk in v.blk && !v.blk[bk].onGpu && IsFree(v, p)
    ensures Thrifty(v, Faulted(v, bk, p), bk)
  {
    var w := Faulted(v, bk, p);
    forall q: nat | Claimable(v, q) && q != p ensures Claimable(w, q) {
      if !v.keys[q].IsEmpty() {
        assert BlockStored(v, v.keys[q]);
      }
    }
  }

  lemma RekeyKeepsClaims(v: View, from: KvKey, bk: KvKey)
    requires Placement(v) && BlockStored(v, from) && bk !in v.blk && !bk.IsEmpty()
    ensures SameClaims(v, Rekeyed(v, from, bk))
  {
    var w := Rekeyed(v, from, bk);
    forall p: nat ensures Claimable(w, p) <==> Claimable(v, p) {
      if p < |v.keys| && !v.keys[p].IsEmpty() {
        assert SlotStored(v, p);
        if v.keys[p] in v.blk {
          assert BlockStored(v, v.keys[p]);
        }
      }
    }
  }

  /** Dropping a block leaves the claims, and adds the slot of a block that is freed. */
  lemma DropKeepsClaims(v: View, bk: KvKey)
    requires Placement(v) && BlockStored(v, bk) && !IsPinned(v, bk) && v.blk[bk].refs > 0
    ensures forall p: nat :: Claimable(v, p) ==> Claimable(Dropped(v, bk), p)
    ensures HasClaim(Dropped(v, bk)) <==> HasClaim(v) || (v.blk[bk].refs == 1 && v.blk[bk].onGpu)
  {
    var w := Dropped(v, bk);
    if v.blk[bk].refs > 1 {
      RefsKeepClaims(v, bk, v.blk[bk].refs - 1);
    } else {
      forall p: nat ensures Claimable(w, p) <==> Claimable(v, p) || (v.blk[bk].onGpu && p == v.blk[bk].physical) {
        if p < |v.keys| && !v.keys[p].IsEmpty() && v.keys[p] in v.blk {
          assert BlockStored(v, v.keys[p]);
        }
      }
      if v.blk[bk].onGpu {
        assert Claimable(w, v.blk[bk].physical);
      }
    }
  }

  // ---- What a step uses up -------------------------------------------------

  /** At most one record and one backing slot are taken, and no claimable slot but the one of `bk`. */
  ghost predicate Spends(v: View, w: View, bk: KvKey) {
    && Thrifty(v, w, bk) && |w.blk| <= |v.blk| + 1 && |w.freeList| + 1 >= |v.freeList|
    && w.backingCapacity == v.backingCapacity
  }

  lemma NothingSpent(v: View, bk: KvKey)
    ensures Spends(v, v, bk)
  {
  }

  lemma AdmittedSpends(v: View, u: View, bk: KvKey, p: nat)
    requires Placement(v) && bk !in v.blk && Sweeps(v.(freeList := Rest(v)), u) && IsFree(u, p) && Shaped(u)
    ensures Spends(v, Admitted(u, bk, p, NextBacking(v)), bk)
  {
    var v', w := v.(freeList := Rest(v)), Admitted(u, bk, p, NextBacking(v));
    PlacementIgnoresFreeList(v, Rest(v));
    SweepKeepsClaims(v', u);
    SweepKeepsPlacement(v', u);
    AdmitKeepsClaims(u, bk, p, NextBacking(v));
    forall q: nat | Claimable(v, q) ensures Claimable(w, q) || Live(w, bk, q) {
      assert Claimable(v', q);
    }
    assert v.blk.Keys == u.blk.Keys && |v.blk.Keys| == |v.blk| && |u.blk.Keys| == |u.blk|;
    SizeAfterInsert(u.blk, bk, w.blk[bk]);
  }

  lemma ResolvedSpends(v: View, w: View, bk: KvKey)
    requires Placement(v) && Resolved(v, w, bk)
    ensures Spends(v, w, bk) && bk in w.blk
    ensures if bk in v.blk then SameClaims(v, w) && w.blk[bk].onGpu == v.blk[bk].onGpu else w.blk[bk].onGpu
  {
    if bk in v.blk {
      RefsKeepClaims(v, bk, v.blk[bk].refs + 1);
      SizeAfterInsert(v.blk, bk, w.blk[bk]);
    } else {
      var u: View, p: nat :|
        Sweeps(v.(freeList := Rest(v)), u) && IsFree(u, p) && Shaped(u) && w == Admitted(u, bk, p, NextBacking(v));
      AdmittedSpends(v, u, bk, p);
    }
  }

  lemma DirectoryIsFree(v: View, w: View, bk: KvKey, dir: map<KvKey, KvKey>)
    requires Spends(v, w, bk)
    ensures Spends(v, w.(dir := dir), bk) && SameClaims(w, w.(dir := dir))
  {
    var u := w.(dir := dir);
    forall p: nat ensures (Claimable(u, p) <==> Claimable(w, p)) && (Live(u, bk, p) <==> Live(w, bk, p)) {
    }
  }

  /** Binding a new slot. */
  lemma InsertSpends(v: View, w: View, dk: KvKey, bk: KvKey)
    requires Coherent(v) && Inserted(v, w, dk, bk) && dk !in v.dir
    ensures Spends(v, w, bk) && (Placeable(w, bk) <==> CanPlace(v, dk, bk))
  {
    OpenCoherent(v);
    var m: View :| Resolved(v, m, bk) && w == m.(dir := v.dir[dk := bk]);
    ResolvedSpends(v, m, bk);
    DirectoryIsFree(v, m, bk, w.dir);
    SameClaim(m, w);
    if bk in v.blk {
      SameClaim(v, m);
    }
  }

  /** Publishing an unshared block in place. */
  lemma RekeySpends(v: View, dk: KvKey, bk: KvKey)
    requires Placement(v) && dk in v.dir && BlockStored(v, v.dir[dk]) && v.blk[v.dir[dk]].refs == 1
    requires bk !in v.blk && !bk.IsEmpty() && !IsPinned(v, v.dir[dk])
    ensures var w := Rekeyed(v, v.dir[dk], bk).(dir := v.dir[dk := bk]);
      Spends(v, w, bk) && (Placeable(w, bk) <==> CanPlace(v, dk, bk))
  {
    var from := v.dir[dk];
    var m := Rekeyed(v, from, bk);
    RekeyKeepsClaims(v, from, bk);
    SizeAfterInsert(v.blk - {from}, bk, v.blk[from]);
    SizeAfterRemove(v.blk, from);
    DirectoryIsFree(v, m, bk, v.dir[dk := bk]);
    SameClaim(v, m);
    SameClaim(m, m.(dir := v.dir[dk := bk]));
  }

  lemma DropKeepsPlace(v: View, from: KvKey, bk: KvKey, p: nat)
    requires Placement(v) && BlockStored(v, from) && bk != from
    ensures Live(v, bk, p) ==> Live(Dropped(v, from), bk, p)
  {
    if Live(v, bk, p) {
      assert BlockStored(v, bk);
    }
  }

  lemma DroppedSize(v: View, bk: KvKey)
    requires BlockStored(v, bk)
    ensures |Dropped(v, bk).blk| <= |v.blk| && |Dropped(v, bk).freeList| >= |v.freeList|
  {
    if v.blk[bk].refs > 1 {
      SizeAfterInsert(v.blk, bk, Dropped(v, bk).blk[bk]);
    } else {
      SizeAfterRemove(v.blk, bk);
    }
  }

  /** The block a slot moves to when its old one is dropped, or the claims there are. */
  lemma MoveSpends(v: View, m: View, dk: KvKey, bk: KvKey)
    requires Placement(v) && Placement(m) && Resolved(v, m, bk) && dk in v.dir && bk != v.dir[dk]
    requires BlockStored(v, v.dir[dk]) && BlockStored(m, v.dir[dk]) && !IsPinned(v, v.dir[dk])
    requires m.blk[v.dir[dk]].refs == v.blk[v.dir[dk]].refs > 0 && m.pins == v.pins
    requires bk in v.blk || v.blk[v.dir[dk]].refs > 1
    ensures Spends(v, Dropped(m, v.dir[dk]), bk)
    ensures Placeable(Dropped(m, v.dir[dk]), bk) <==> CanPlace(v, dk, bk)
  {
    var from := v.dir[dk];
    var n := Dropped(m, from);
    ResolvedSpends(v, m, bk);
    if bk in v.blk {
      SameClaim(v, m);
      DropKeepsClaims(m, from);
    } else {
      RefsKeepClaims(m, from, m.blk[from].refs - 1);
    }
    forall p: nat | Claimable(v, p) ensures Claimable(n, p) || Live(n, bk, p) {
      assert Claimable(m, p) || Live(m, bk, p);
      DropKeepsPlace(m, from, bk, p);
    }
    DroppedSize(m, from);
  }

  lemma RebindSpends(v: View, m: View, dk: KvKey, bk: KvKey)
    requires Consistent(v) && Resolved(v, m, bk) && !bk.IsEmpty() && dk in v.dir && bk != v.dir[dk]
    requires BlockStored(v, v.dir[dk]) && BlockStored(m, v.dir[dk]) && !IsPinned(v, v.dir[dk])
    requires bk in v.blk || v.blk[v.dir[dk]].refs > 1
    ensures var w := Dropped(m, v.dir[dk]).(dir := v.dir[dk := bk]);
      Spends(v, w, bk) && (Placeable(w, bk) <==> CanPlace(v, dk, bk))
  {
    var n := Dropped(m, v.dir[dk]);
    ResolveKeepsLeaver(v, m, dk, bk);
    ResolvedKeeps(v, m, bk);
    MoveSpends(v, m, dk, bk);
    DirectoryIsFree(v, n, bk, v.dir[dk := bk]);
    SameClaim(n, n.(dir := v.dir[dk := bk]));
  }

  /** Every way of promoting. */
  lemma PromoteSpends(v: View, w: View, dk: KvKey, bk: KvKey)
    requires Coherent(v) && dk in v.dir && bk != v.dir[dk] && !bk.IsEmpty()
    requires BlockStored(v, v.dir[dk]) && Promoted(v, w, dk, bk)
    ensures Spends(v, w, Target(v, dk, bk)) && (Placeable(w, Target(v, dk, bk)) <==> CanPlace(v, dk, bk))
  {
    var from := v.dir[dk];
    OpenCoherent(v);
    BoundSlot(v, dk);
    if IsPinned(v, from) {
      NothingSpent(v, from);
    } else if bk !in v.blk && v.blk[from].refs == 1 {
      RekeySpends(v, dk, bk);
    } else {
      var m: View :| Resolved(v, m, bk) && BlockStored(m, from) && w == Dropped(m, from).(dir := v.dir[dk := bk]);
      RebindSpends(v, m, dk, bk);
    }
  }

  lemma FaultedSpends(v: View, u: View, bk: KvKey, p: nat)
    requires Placement(v) && bk in v.blk && !v.blk[bk].onGpu && Sweeps(v, u) && IsFree(u, p) && Shaped(u) && bk in u.blk
    ensures Thrifty(v, Faulted(u, bk, p), bk) && |Faulted(u, bk, p).blk| == |v.blk|
  {
    var w := Faulted(u, bk, p);
    SweepKeepsClaims(v, u);
    SweepKeepsPlacement(v, u);
    SweptBlockStaysSwapped(v, u, bk);
    FaultKeepsClaims(u, bk, p);
    assert v.blk.Keys == w.blk.Keys && |v.blk.Keys| == |v.blk| && |w.blk.Keys| == |w.blk|;
  }

  lemma SweepFrame(v: View, w: View)
    requires Sweeps(v, w)
    ensures w.freeList == v.freeList && w.backingCapacity == v.backingCapacity
  {
  }

  /** Bringing a block to the GPU. */
  lemma ResidentSpends(v: View, w: View, bk: KvKey, p: nat)
    requires Coherent(v) && MadeResident(v, w, bk, p)
    ensures Thrifty(v, w, bk) && |w.blk| == |v.blk| && w.freeList == v.freeList
    ensures w.backingCapacity == v.backingCapacity
  {
    OpenCoherent(v);
    if v.blk[bk].onGpu {
      assert BlockStored(v, bk);
    } else {
      var u: View :| Sweeps(v, u) && IsFree(u, p) && Shaped(u) && bk in u.blk && w == Faulted(u, bk, p);
      FaultedSpends(v, u, bk, p);
      SweepFrame(v, u);
    }
  }

  lemma SpendsThenThrifty(v: View, m: View, w: View, bk: KvKey)
    requires Spends(v, m, bk) && Thrifty(m, w, bk) && KeepsLive(m, w, {})
    requires |w.blk| == |m.blk| && w.freeList == m.freeList && w.backingCapacity == m.backingCapacity
    ensures Spends(v, w, bk)
  {
    forall p: nat | Claimable(v, p) ensures Claimable(w, p) || Live(w, bk, p) {
      assert Claimable(m, p) || Live(m, bk, p);
    }
  }

  /** Setting the state of the slot of a live block. */
  lemma StatesSpend(v: View, m: View, w: View, bk: KvKey, p: nat)
    requires Spends(v, m, bk) && Live(m, bk, p) && w == m.(states := w.states) && |w.states| == |m.states|
    requires forall q :: 0 <= q < |m.states| && q != p ==> w.states[q] == m.states[q]
    requires Shaped(m)
    ensures Spends(v, w, bk)
  {
    forall q: nat | Claimable(v, q) ensures Claimable(w, q) || Live(w, bk, q) {
      assert Claimable(m, q) || Live(m, bk, q);
    }
  }

  // ---- Room for many cells -------------------------------------------------

  ghost function Claims(v: View): set<nat> {
    set p: nat | p < |v.keys| && Claimable(v, p)
  }

  /** Room for `n` cells, whatever each of them asks for. */
  ghost predicate HasRoom(v: View, n: nat, slots: nat, limit: nat) {
    && |Claims(v)| >= n && |v.blk| + n <= limit && |v.dir| + n <= slots
    && (v.backingCapacity > 0 ==> |v.freeList| >= n)
  }

  lemma RoomToAcquire(v: View, n: nat, dk: KvKey, bk: KvKey, slots: nat, limit: nat)
    requires HasRoom(v, n, slots, limit) && n > 0
    ensures CanAcquire(v, dk, bk, slots, limit)
  {
    var p :| p in Claims(v);
    assert Claimable(v, p);
  }

  lemma ClaimsLeft(v: View, w: View, bk: KvKey)
    requires Thrifty(v, w, bk) && |w.keys| == |v.keys|
    ensures |Claims(w)| + 1 >= |Claims(v)|
  {
    var own := if bk in w.blk then {w.blk[bk].physical} else {};
    assert Claims(v) <= Claims(w) + own;
    SubsetIsSmaller(Claims(v), Claims(w) + own);
  }

  lemma RoomLeft(v: View, w: View, n: nat, dk: KvKey, bk: KvKey, slots: nat, limit: nat)
    requires HasRoom(v, n, slots, limit) && n > 0 && Spends(v, w, bk) && w.dir == v.dir[dk := bk]
    requires |w.keys| == |v.keys|
    ensures HasRoom(w, n - 1, slots, limit)
  {
    ClaimsLeft(v, w, bk);
    SizeAfterInsert(v.dir, dk, bk);
  }

  /** Acquiring one cell with room for it and `rest` more: it is not refused, and room for the rest remains. */
  lemma RoomStep(v: View, w: View, rest: nat, dk: KvKey, bk: KvKey, slots: nat, limit: nat, ok: bool)
    requires HasRoom(v, rest + 1, slots, limit)
    requires ok ==> Spends(v, w, Target(v, dk, bk)) && w.dir == v.dir[dk := Target(v, dk, bk)] && |w.keys| == |v.keys|
    ensures CanAcquire(v, dk, bk, slots, limit) && (ok ==> HasRoom(w, rest, slots, limit))
  {
    RoomToAcquire(v, rest + 1, dk, bk, slots, limit);
    if ok {
      RoomLeft(v, w, rest + 1, dk, Target(v, dk, bk), slots, limit);
    }
  }

  /** An idle state has room for as many cells as it has physical slots, records, directory slots and backing slots. */
  lemma IdleIsRoomy(v: View, epoch: nat, n: nat, slots: nat, limit: nat)
    requires Idle(v) && n <= |v.keys| && n <= limit && n <= slots && (v.backingCapacity > 0 ==> n <= v.backingCapacity)
    ensures HasRoom(v.(epoch := epoch), n, slots, limit)
  {
    var w := v.(epoch := epoch);
    forall p: nat | p < |w.keys| ensures Claimable(w, p) {
      assert PinCount(v, p) == 0;
    }
    assert forall p :: p in UpTo(|w.keys|) ==> p in Claims(w);
    DistinctAreCounted(UpTo(|w.keys|), Claims(w));
  }

  lemma {:induction false} SlotsBelow(x: set<nat>, n: nat)
    requires forall p :: p in x ==> p < n
    ensures |x| <= n
  {
    if n == 0 {
      assert x == {};
    } else {
      SlotsBelow(x - {n - 1}, n - 1);
      assert n - 1 !in x ==> x - {n - 1} == x;
    }
  }

  lemma ClaimsAreSlots(v: View)
    ensures |Claims(v)| <= |v.keys|
  {
    SlotsBelow(Claims(v), |v.keys|);
  }
}
