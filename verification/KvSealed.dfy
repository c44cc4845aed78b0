/**
 * The steps of the block directory, stated over sealed invariants: each lemma
 * opens the invariant, applies a step of `KvView`, and closes it again.
 */
module KvSealed {
  import opened Results
  import opened Sequences
  import opened KvIndex
  import opened KvView

  lemma IntactIsSited(v: View)
    requires Intact(v)
    ensures Sited(v) && Shaped(v)
  {
    OpenIntact(v);
    OpenSited(v);
  }

  /** How the three counted quantities change. */
  ghost predicate CountsMove(v: View, w: View, blocks: int, swapped: int, occupied: int) {
    && |w.blk| == |v.blk| + blocks
    && |Swapped(w.blk)| == |Swapped(v.blk)| + swapped
    && Occupied(w.keys) == Occupied(v.keys) + occupied
  }

  // ---- Physical slots ------------------------------------------------------

  lemma SitedIgnoresFreeList(v: View, free: seq<nat>)
    requires Sited(v)
    ensures Sited(v.(freeList := free))
  {
    OpenSited(v);
    PlacementIgnoresFreeList(v, free);
    OpenSited(v.(freeList := free));
  }

  lemma SweepKeepsSited(v: View, w: View)
    requires Sited(v) && Sweeps(v, w)
    ensures Sited(w) && Shaped(w) && |w.keys| == |v.keys|
  {
    OpenSited(v);
    SweepKeepsPlacement(v, w);
    OpenSited(w);
  }

  lemma SweepKeepsIntact(v: View, w: View)
    requires Intact(v) && Sweeps(v, w)
    ensures Intact(w)
  {
    OpenIntact(v);
    SweepKeepsPlacement(v, w);
    SameBackingStaysExact(v.blk, w.blk, v.backingCapacity, v.freeList);
    OpenIntact(w);
  }

  lemma SpillKeepsSited(v: View, bk: KvKey)
    requires Sited(v) && Evictable(v, bk)
    ensures Sited(Spilled(v, bk)) && CountsMove(v, Spilled(v, bk), 0, 1, -1)
    ensures IsFree(Spilled(v, bk), v.blk[bk].physical) && BlockStored(v, bk)
  {
    OpenSited(v);
    assert BlockStored(v, bk);
    SpillKeepsPlacement(v, bk);
    SpillCounts(v, bk);
    OpenSited(Spilled(v, bk));
  }

  /** What a sited slot is known to be. */
  lemma SitedSlot(v: View, p: nat)
    requires Sited(v) && p < |v.keys|
    ensures Shaped(v) && SlotStored(v, p)
  {
    OpenSited(v);
  }

  // ---- Blocks --------------------------------------------------------------

  /** What a sited block is known to be. */
  lemma SitedBlock(v: View, bk: KvKey)
    requires Sited(v) && bk in v.blk
    ensures BlockStored(v, bk) && |v.blk| > 0
    ensures if v.blk[bk].onGpu then Occupied(v.keys) > 0 else |Swapped(v.blk)| > 0
  {
    OpenSited(v);
    assert BlockStored(v, bk);
    FreeCounts(v, bk);
  }

  /** The backing slot a block owns is in range and not on the free list. */
  lemma OwnedBacking(v: View, bk: KvKey)
    requires Intact(v) && bk in v.blk
    ensures v.backingCapacity == 0 ==> v.blk[bk].backing == NO_BLOCK
    ensures v.backingCapacity > 0 ==> v.blk[bk].backing < v.backingCapacity && v.blk[bk].backing !in v.freeList
  {
    OpenIntact(v);
    assert BackingUsed(v.blk, v.blk[bk].backing);
  }

  /** A backing slot just taken from the free list is in range and not on the rest of it. */
  lemma TakenBacking(v: View)
    requires Intact(v) && v.backingCapacity > 0 && v.freeList != []
    ensures NextBacking(v) < v.backingCapacity && NextBacking(v) !in Rest(v)
  {
    OpenIntact(v);
    assert v.freeList[0] in v.freeList;
  }

  lemma AdmitKeepsIntact(v: View, u: View, bk: KvKey, p: nat)
    requires Intact(v) && bk !in v.blk && !bk.IsEmpty() && (v.backingCapacity > 0 ==> v.freeList != [])
    requires Sweeps(v.(freeList := Rest(v)), u) && IsFree(u, p) && Shaped(u)
    ensures var w := Admitted(u, bk, p, NextBacking(v));
      Intact(w) && CountsMove(u, w, 1, 0, 1) && Resolved(v, w, bk)
  {
    OpenIntact(v);
    AdmitAfterSweepKeeps(v, u, bk, p);
    PlacementIgnoresFreeList(v, Rest(v));
    SweepKeepsPlacement(v.(freeList := Rest(v)), u);
    AdmitCounts(u, bk, p, NextBacking(v));
    OpenIntact(Admitted(u, bk, p, NextBacking(v)));
  }

  lemma UpdateKeepsIntact(v: View, bk: KvKey, b: Block)
    requires Intact(v) && bk in v.blk
    requires b.physical == v.blk[bk].physical && b.onGpu == v.blk[bk].onGpu && b.backing == v.blk[bk].backing
    requires b.onGpu || b.backingValid == v.blk[bk].backingValid
    ensures var w := v.(blk := v.blk[bk := b]); Intact(w) && CountsMove(v, w, 0, 0, 0)
  {
    var w := v.(blk := v.blk[bk := b]);
    OpenIntact(v);
    SamePlacesKeepStorage(v, w);
    SizeAfterInsert(v.blk, bk, b);
    SwappedAfterUpdate(v.blk, bk, b);
    OpenIntact(w);
  }

  lemma FreeKeepsIntact(v: View, bk: KvKey)
    requires Intact(v) && BlockStored(v, bk) && !IsPinned(v, bk)
    ensures Intact(Freed(v, bk))
    ensures CountsMove(v, Freed(v, bk), -1, if v.blk[bk].onGpu then 0 else -1, if v.blk[bk].onGpu then -1 else 0)
  {
    OpenIntact(v);
    FreeKeepsStorage(v, bk);
    FreeCounts(v, bk);
    OpenIntact(Freed(v, bk));
  }

  lemma RekeyKeepsIntact(v: View, from: KvKey, bk: KvKey)
    requires Intact(v) && BlockStored(v, from) && bk !in v.blk && !bk.IsEmpty()
    ensures Intact(Rekeyed(v, from, bk)) && CountsMove(v, Rekeyed(v, from, bk), 0, 0, 0)
  {
    OpenIntact(v);
    RekeyKeepsStorage(v, from, bk);
    RekeyCounts(v, from, bk);
    OpenIntact(Rekeyed(v, from, bk));
  }

  lemma FaultKeepsIntact(v: View, u: View, bk: KvKey, p: nat)
    requires Intact(v) && bk in v.blk && !v.blk[bk].onGpu
    requires Sweeps(v, u) && IsFree(u, p) && Shaped(u) && bk in u.blk
    ensures var w := Faulted(u, bk, p);
      Intact(w) && CountsMove(u, w, 0, -1, 1) && MadeResident(v, w, bk, p)
  {
    OpenIntact(v);
    assert BlockStored(v, bk);
    SweptBlockStaysSwapped(v, u, bk);
    FaultAfterSweepKeeps(v, u, bk, p);
    FaultCounts(u, bk, p);
    OpenIntact(Faulted(u, bk, p));
  }

  lemma SamePlacesKeepIntact(v: View, w: View)
    requires Intact(v) && SamePlaces(v, w)
    ensures Intact(w)
  {
    OpenIntact(v);
    SamePlacesKeepStorage(v, w);
    OpenIntact(w);
  }

  lemma IntactIgnoresDirectory(v: View, dir: map<KvKey, KvKey>)
    requires Intact(v)
    ensures Intact(v.(dir := dir))
  {
    OpenIntact(v);
    StorageIgnoresDirectory(v, dir);
    OpenIntact(v.(dir := dir));
  }

  // ---- Directory slots -----------------------------------------------------

  /** A bound slot names a block it may name, which counts it. */
  lemma BoundSlot(v: View, dk: KvKey)
    requires Coherent(v) && dk in v.dir
    ensures BlockStored(v, v.dir[dk]) && v.blk[v.dir[dk]].refs > 0 && IsPrivate(dk) && MayName(dk, v.dir[dk])
  {
    OpenCoherent(v);
    assert BlockStored(v, v.dir[dk]);
    NamedIsCounted(v.dir, dk);
  }

  lemma InsertKeepsCoherent(v: View, w: View, dk: KvKey, bk: KvKey)
    requires Coherent(v) && Inserted(v, w, dk, bk) && !bk.IsEmpty()
    requires dk !in v.dir && IsPrivate(dk) && MayName(dk, bk)
    ensures Coherent(w) && Rebinds(v, w, dk, bk)
  {
    OpenCoherent(v);
    InsertedKeeps(v, w, dk, bk);
    InsertedKeepsPinned(v, w, dk, bk);
  }

  lemma RekeyKeepsCoherent(v: View, dk: KvKey, bk: KvKey)
    requires Coherent(v) && dk in v.dir && MayName(dk, bk) && bk !in v.blk && !bk.IsEmpty()
    requires BlockStored(v, v.dir[dk]) && v.blk[v.dir[dk]].refs == 1 && !IsPinned(v, v.dir[dk])
    ensures var w := Rekeyed(v, v.dir[dk], bk).(dir := v.dir[dk := bk]);
      Coherent(w) && Rebinds(v, w, dk, bk)
  {
    OpenCoherent(v);
    RekeyedKeeps(v, dk, bk);
    RekeyKeepsPinned(v, v.dir[dk], bk);
  }

  /** Once `bk` has a new reference the slot can leave its old block. */
  lemma LeaveIsSafe(v: View, m: View, dk: KvKey, bk: KvKey)
    requires Coherent(v) && Resolved(v, m, bk) && !bk.IsEmpty()
    requires dk in v.dir && bk != v.dir[dk] && !IsPinned(v, v.dir[dk])
    requires v.dir[dk] in v.blk && (bk in v.blk || v.blk[v.dir[dk]].refs > 1)
    ensures BlockStored(m, v.dir[dk]) && m.blk[v.dir[dk]].refs > 0
    ensures m.blk[v.dir[dk]].refs == 1 ==> !IsPinned(m, v.dir[dk])
  {
    OpenCoherent(v);
    ResolveKeepsLeaver(v, m, dk, bk);
  }

  lemma MoveKeepsCoherent(v: View, m: View, dk: KvKey, bk: KvKey)
    requires Coherent(v) && Resolved(v, m, bk) && !bk.IsEmpty()
    requires dk in v.dir && MayName(dk, bk) && bk != v.dir[dk] && !IsPinned(v, v.dir[dk])
    requires v.dir[dk] in v.blk && (bk in v.blk || v.blk[v.dir[dk]].refs > 1)
    requires BlockStored(m, v.dir[dk])
    ensures var w := Dropped(m, v.dir[dk]).(dir := v.dir[dk := bk]);
      Coherent(w) && Rebinds(v, w, dk, bk)
  {
    OpenCoherent(v);
    MovedKeeps(v, m, dk, bk);
    MovedKeepsPinned(v, m, dk, bk);
  }

  /** Every way of promoting rebinds the slot to its target. */
  lemma PromotedRebinds(v: View, w: View, dk: KvKey, bk: KvKey)
    requires Coherent(v) && dk in v.dir && MayName(dk, bk) && bk != v.dir[dk] && !bk.IsEmpty()
    requires BlockStored(v, v.dir[dk]) && Promoted(v, w, dk, bk)
    ensures Rebinds(v, w, dk, Target(v, dk, bk))
  {
    OpenCoherent(v);
    PromotedKeeps(v, w, dk, bk);
    PromotedKeepsPinned(v, w, dk, bk);
  }

  lemma ReleaseKeepsCoherent(v: View, dk: KvKey)
    requires Coherent(v) && dk in v.dir && BlockStored(v, v.dir[dk])
    requires v.blk[v.dir[dk]].refs == 1 ==> !IsPinned(v, v.dir[dk])
    ensures var w := Dropped(v, v.dir[dk]).(dir := v.dir - {dk}); Coherent(w) && KeepsPinned(v, w)
  {
    OpenCoherent(v);
    NamedIsCounted(v.dir, dk);
    ReleasedKeeps(v, dk);
    DroppedKeepsPinned(v, v.dir[dk]);
  }

  /** Making a block resident moves nothing that is live. */
  lemma ResidentKeepsCoherent(v: View, w: View, bk: KvKey, p: nat)
    requires Coherent(v) && MadeResident(v, w, bk, p)
    ensures Coherent(w) && KeepsLive(v, w, {}) && KeepsPinned(v, w) && Live(w, bk, p)
    ensures w.dir == v.dir && w.pins == v.pins && |w.keys| == |v.keys|
  {
    OpenCoherent(v);
    MadeResidentKeeps(v, w, bk, p);
    MadeResidentKeepsPinned(v, w, bk, p);
    NamingKeepsRefs(v.dir, v.blk, w.blk);
    OpenCoherent(w);
  }

  /** A sweep alone moves nothing that is live. */
  lemma SweepKeepsCoherent(v: View, w: View)
    requires Coherent(v) && Sweeps(v, w)
    ensures Coherent(w) && KeepsLive(v, w, {}) && KeepsPinned(v, w)
    ensures w.dir == v.dir && w.pins == v.pins && |w.keys| == |v.keys|
  {
    OpenCoherent(v);
    SweepKeepsPlacement(v, w);
    SameBackingStaysExact(v.blk, w.blk, v.backingCapacity, v.freeList);
    SweepKeepsLive(v, w);
    SweepKeepsPinned(v, w);
    NamingKeepsRefs(v.dir, v.blk, w.blk);
    OpenCoherent(w);
  }

  /** Changing slot states, uses, marks, pins or the epoch moves no block and shares none. */
  lemma SamePlacesKeepCoherent(v: View, w: View)
    requires Coherent(v) && SamePlaces(v, w) && SameRefs(v.blk, w.blk) && w.dir == v.dir
    ensures Coherent(w)
  {
    OpenCoherent(v);
    SamePlacesKeepStorage(v, w);
    NamingKeepsRefs(v.dir, v.blk, w.blk);
    OpenCoherent(w);
  }

  /** Replacing one record's validity or mark, in place, shares and moves nothing. */
  lemma UpdateKeepsCoherent(v: View, bk: KvKey, b: Block)
    requires Coherent(v) && bk in v.blk
    requires b == v.blk[bk].(backingValid := b.backingValid, prefetchMark := b.prefetchMark)
    requires b.onGpu || b.backingValid == v.blk[bk].backingValid
    ensures Coherent(v.(blk := v.blk[bk := b]))
  {
    OpenCoherent(v);
    SamePlacesKeepCoherent(v, v.(blk := v.blk[bk := b]));
  }

  // ---- Transient slots, idle states ----------------------------------------

  /** Data in GPU memory has no bearing on what is where. */
  lemma DataKeepsCoherent(v: View, gpu: Tier)
    requires Coherent(v) && Shaped(v)
    ensures SamePlaces(v, v.(gpu := gpu)) && Coherent(v.(gpu := gpu))
  {
    SamePlacesKeepCoherent(v, v.(gpu := gpu));
  }

  /** A physical slot that is lent out: transient, under the key reserved for it, pinned once. */
  ghost predicate IsBorrowed(mix: Mixer, v: View, p: nat) {
    && Shaped(v) && p < |v.keys| && v.states[p] == Transient
    && v.keys[p] == PrivateKey(mix, 0xFFFF_FFFF_FFFF_FFFF, p) && v.pins.Some? && v.pins.value[p] == 1
  }

  /** A free slot is lent out. */
  ghost function Lent(mix: Mixer, v: View, p: nat): View
    requires Shaped(v) && p < |v.keys| && v.pins.Some?
  {
    var key := PrivateKey(mix, 0xFFFF_FFFF_FFFF_FFFF, p);
    Assigned(v, p, key, Transient).(pins := Some(v.pins.value[p := 1]))
  }

  /** A slot that was lent out is free again. */
  ghost function Returned(v: View, p: nat): View
    requires Shaped(v) && p < |v.keys| && v.pins.Some?
  {
    Cleared(v, p).(pins := Some(v.pins.value[p := 0]))
  }

  /** Slot `p`, which the sweep found free or freed, is lent out; nothing else changes. */
  ghost predicate Borrows(mix: Mixer, v: View, w: View, p: nat) {
    exists u: View :: Sweeps(v, u) && Shaped(u) && IsFree(u, p) && u.pins.Some? && w == Lent(mix, u, p)
  }

  lemma LentIsReturned(mix: Mixer, v: View, p: nat)
    requires Shaped(v) && p < |v.keys| && SlotStored(v, p) && v.keys[p].IsEmpty() && v.pins.Some?
    ensures IsBorrowed(mix, Lent(mix, v, p), p) && Returned(Lent(mix, v, p), p) == v.(lastUsed := v.lastUsed[p := 0])
  {
    var w := Returned(Lent(mix, v, p), p);
    assert w.keys == v.keys && w.states == v.states && w.pins.value == v.pins.value;
  }

  /** A slot that was lent out can be given back, and then the store is what the sweep left. */
  lemma BorrowedIsReturned(mix: Mixer, v: View, w: View, p: nat)
    requires Coherent(v) && Borrows(mix, v, w, p)
    ensures IsBorrowed(mix, w, p)
    ensures exists u: View :: Sweeps(v, u) && p < |u.lastUsed| && Returned(w, p) == u.(lastUsed := u.lastUsed[p := 0])
  {
    var u: View :| Sweeps(v, u) && Shaped(u) && IsFree(u, p) && u.pins.Some? && w == Lent(mix, u, p);
    assert SlotStored(u, p) by {
      OpenCoherent(v);
      SweepKeepsPlacement(v, u);
    }
    LentIsReturned(mix, u, p);
  }

  lemma TransientKeepsCoherent(v: View, p: nat, key: KvKey, pins: seq<nat>)
    requires Coherent(v) && IsFree(v, p) && !key.IsEmpty() && Shaped(v)
    requires v.pins.Some? && |pins| == |v.keys| && forall q :: 0 <= q < |pins| && q != p ==> pins[q] == v.pins.value[q]
    ensures var w := Assigned(v, p, key, Transient).(pins := Some(pins));
      Coherent(w) && Intact(w) && CountsMove(v, w, 0, 0, 1) && KeepsPinned(v, w)
  {
    var w := Assigned(v, p, key, Transient).(pins := Some(pins));
    OpenCoherent(v);
    forall k | k in v.blk ensures IsPinned(w, k) <==> IsPinned(v, k) {
      assert BlockStored(v, k);
    }
    TransientKeepsStorage(v, p, key, pins);
    OccupiedAfterUpdate(v.keys, p, key);
    OpenCoherent(w);
    OpenIntact(w);
  }

  lemma TransientReleaseKeepsCoherent(v: View, p: nat, pins: seq<nat>)
    requires Coherent(v) && Shaped(v) && p < |v.keys| && v.states[p] == Transient && !v.keys[p].IsEmpty()
    requires v.pins.Some? && |pins| == |v.keys| && pins[p] == 0
    requires forall q :: 0 <= q < |pins| && q != p ==> pins[q] == v.pins.value[q]
    ensures var w := Cleared(v, p).(pins := Some(pins));
      Coherent(w) && Intact(w) && CountsMove(v, w, 0, 0, -1)
  {
    var w := Cleared(v, p).(pins := Some(pins));
    OpenCoherent(v);
    TransientReleaseKeepsStorage(v, p, pins);
    OccupiedAfterUpdate(v.keys, p, EMPTY_KEY);
    OpenCoherent(w);
    OpenIntact(w);
  }

  lemma IdleIsCoherent(v: View)
    requires Idle(v)
    ensures Coherent(v) && Intact(v) && Occupied(v.keys) == 0 && Swapped(v.blk) == {}
  {
    IdleIsConsistent(v);
    OpenCoherent(v);
    OpenIntact(v);
  }

  lemma EmptyBecomesIdle(v: View, capacity: nat, pins: Option<seq<nat>>)
    requires Coherent(v) && v.dir == map[] && Occupied(v.keys) == 0
    requires pins == v.pins
      || (pins.Some? && |pins.value| == |v.keys| && forall p :: 0 <= p < |v.keys| ==> pins.value[p] == 0)
    ensures v.blk == map[] && Idle(v.(backingCapacity := capacity, freeList := UpTo(capacity), pins := pins))
  {
    OpenCoherent(v);
    UnboundMeansNoBlocks(v);
    EmptyIsIdle(v, capacity, pins);
  }
}
