/**
 * Passes over the cells of a packet: what building, committing, cancelling,
 * releasing and prefetching establish cell by cell, and that each further cell
 * leaves the earlier ones as they are.
 */
module KvPasses {
  import opened Blocks
  import opened Results
  import opened Sequences
  import opened KvIndex
  import opened KvView
  import opened KvSealed
  import opened KvReadiness
  import opened KvLanes

  /** Slot states place nothing. */
  lemma StatesKeepPlaced(v: View, w: View)
    requires w == v.(states := w.states) && |w.states| == |v.states|
    ensures KeepsLive(v, w, {}) && KeepsPinned(v, w)
    ensures forall k, p: nat :: Placed(v, k, p) ==> Placed(w, k, p)
  {
  }

  /** Epochs wrap to one, never to zero. */
  function NextEpoch(epoch: nat): (e: nat)
    ensures e > 0
  {
    if epoch + 1 >= 0x1_0000_0000_0000_0000 then 1 else epoch + 1
  }

  // ---- Marking blocks resident ---------------------------------------------

  /** The physical slots of the blocks that the slots in `slots` name. */
  ghost function Homes(v: View, slots: set<KvKey>): set<nat> {
    set dk | dk in slots && dk in v.dir && v.dir[dk] in v.blk && v.blk[v.dir[dk]].onGpu :: v.blk[v.dir[dk]].physical
  }

  /** Exactly the physical slots of the blocks of `slots` are resident and used this epoch; nothing else changes. */
  ghost predicate Marks(v: View, w: View, slots: set<KvKey>) {
    && w == v.(states := w.states, lastUsed := w.lastUsed)
    && |w.states| == |v.states| && |w.lastUsed| == |v.lastUsed|
    && (forall q :: 0 <= q < |v.states| ==> w.states[q] == if q in Homes(v, slots) then Resident else v.states[q])
    && (forall q :: 0 <= q < |v.lastUsed| ==> w.lastUsed[q] == if q in Homes(v, slots) then v.epoch else v.lastUsed[q])
  }

  lemma NothingMarked(v: View)
    ensures Marks(v, v, {})
  {
  }

  lemma OneIsMarked(v: View, w: View, dk: KvKey, q: nat)
    requires dk in v.dir && v.dir[dk] in v.blk && v.blk[v.dir[dk]].onGpu && v.blk[v.dir[dk]].physical == q
    requires q < |v.states| == |v.lastUsed|
    requires w == v.(states := v.states[q := Resident], lastUsed := v.lastUsed[q := v.epoch])
    ensures Marks(v, w, {dk})
  {
    assert Homes(v, {dk}) == {q};
  }

  lemma MarksChain(u: View, v: View, w: View, slots: set<KvKey>, more: set<KvKey>)
    requires Marks(u, v, slots) && Marks(v, w, more)
    ensures Marks(u, w, slots + more)
  {
    assert Homes(v, more) == Homes(u, more);
    assert Homes(u, slots + more) == Homes(u, slots) + Homes(u, more);
  }

  /** After marking, the block of every slot marked is resident, and all other blocks are as ready as they were. */
  lemma MarkedIsResident(v: View, w: View, slots: set<KvKey>, bk: KvKey)
    requires Coherent(v) && Marks(v, w, slots) && bk in v.blk
    ensures StateOf(w, bk) == if bk in NamedBy(v.dir, slots) then Resident else StateOf(v, bk)
  {
    OpenCoherent(v);
    assert BlockStored(v, bk);
    if v.blk[bk].onGpu {
      var q := v.blk[bk].physical;
      if q in Homes(v, slots) {
        var dk :|
          && dk in slots && dk in v.dir && v.dir[dk] in v.blk && v.blk[v.dir[dk]].onGpu
          && v.blk[v.dir[dk]].physical == q;
        assert BlockStored(v, v.dir[dk]);
      }
    }
  }

  // ---- Commit: blocks go stale ---------------------------------------------

  /** Exactly the blocks of `slots` lose their backing copies; nothing else changes. */
  ghost predicate GoesStale(v: View, w: View, slots: set<KvKey>) {
    && w == v.(blk := w.blk) && w.blk.Keys == v.blk.Keys
    && forall bk :: bk in v.blk ==>
         w.blk[bk] == v.blk[bk].(backingValid := v.blk[bk].backingValid && bk !in NamedBy(v.dir, slots))
  }

  lemma NothingStale(v: View)
    ensures GoesStale(v, v, {})
  {
  }

  lemma OneGoesStale(v: View, w: View, dk: KvKey)
    requires dk in v.dir && v.dir[dk] in v.blk
    requires w == v.(blk := v.blk[v.dir[dk] := v.blk[v.dir[dk]].(backingValid := false)])
    ensures GoesStale(v, w, {dk})
  {
    assert NamedBy(v.dir, {dk}) == {v.dir[dk]};
  }

  lemma StaleChain(u: View, v: View, w: View, slots: set<KvKey>, more: set<KvKey>)
    requires GoesStale(u, v, slots) && GoesStale(v, w, more)
    ensures GoesStale(u, w, slots + more)
  {
    assert NamedBy(u.dir, slots + more) == NamedBy(u.dir, slots) + NamedBy(u.dir, more);
  }

  ghost function StaleSeal(v: View, w: View, slots: set<KvKey>, depth: nat): nat {
    if depth > 0 then StaleSeal(v, w, slots, depth - 1) else if GoesStale(v, w, slots) then 1 else 0
  }

  /** `GoesStale`, sealed behind a recursion the verifier does not unroll. */
  ghost predicate GoingStale(v: View, w: View, slots: set<KvKey>) {
    StaleSeal(v, w, slots, v.epoch + 2) == 1
  }

  lemma {:induction false} UnsealStale(v: View, w: View, slots: set<KvKey>, depth: nat)
    ensures StaleSeal(v, w, slots, depth) == 1 <==> GoesStale(v, w, slots)
  {
    if depth > 0 {
      UnsealStale(v, w, slots, depth - 1);
    }
  }

  lemma OpenStale(v: View, w: View, slots: set<KvKey>)
    ensures GoingStale(v, w, slots) <==> GoesStale(v, w, slots)
  {
    UnsealStale(v, w, slots, v.epoch + 2);
  }

  lemma StaleKeepsResidence(v: View, w: View, slots: set<KvKey>)
    requires GoesStale(v, w, slots)
    ensures SameResidence(v, w)
  {
  }

  function FirstWritten(p: Packet, lane: nat): nat
    requires lane < |p.lanes| && p.blockTokens > 0
  {
    Truncated(BlockOf(p.lanes[lane].position, p.blockTokens))
  }

  function LastWritten(p: Packet, lane: nat): nat
    requires lane < |p.lanes| && p.blockTokens > 0 && p.writtenPositions > 0
  {
    Truncated(BlockOf(WriteEnd(p.lanes[lane].position, p.writtenPositions), p.blockTokens))
  }

  /** The slots of cells `lo .. hi` of a lane. */
  ghost function SlotsBetween(mix: Mixer, p: Packet, lane: nat, lo: nat, hi: nat): set<KvKey>
    requires lane < |p.lanes|
  {
    set b: nat | lo <= b < hi :: SlotKey(mix, p, lane, b)
  }

  lemma OneMoreBetween(mix: Mixer, p: Packet, lane: nat, lo: nat, hi: nat)
    requires lane < |p.lanes| && lo <= hi
    ensures SlotsBetween(mix, p, lane, lo, hi + 1) == SlotsBetween(mix, p, lane, lo, hi) + {SlotKey(mix, p, lane, hi)}
  {
    forall dk | dk in SlotsBetween(mix, p, lane, lo, hi + 1)
      ensures dk in SlotsBetween(mix, p, lane, lo, hi) + {SlotKey(mix, p, lane, hi)}
    {
      var b: nat :| lo <= b < hi + 1 && SlotKey(mix, p, lane, b) == dk;
    }
  }

  /** The slots of the blocks the first `n` lanes have written. */
  ghost function WrittenSlots(mix: Mixer, p: Packet, n: nat): set<KvKey>
    requires n <= |p.lanes| && p.blockTokens > 0 && p.writtenPositions > 0
  {
    if n == 0 then {}
    else WrittenSlots(mix, p, n - 1) + SlotsBetween(mix, p, n - 1, FirstWritten(p, n - 1), LastWritten(p, n - 1) + 1)
  }

  /** Every lane writes within its context. */
  predicate LanesWrite(p: Packet, n: nat)
    requires n <= |p.lanes| && p.writtenPositions > 0
  {
    n == 0
    || (&& LanesWrite(p, n - 1)
        && WriteEnd(p.lanes[n - 1].position, p.writtenPositions) < p.lanes[n - 1].contextTokens)
  }

  lemma {:induction false} LanesFailToWrite(p: Packet, n: nat, lane: nat)
    requires lane < n <= |p.lanes| && p.writtenPositions > 0
    requires WriteEnd(p.lanes[lane].position, p.writtenPositions) >= p.lanes[lane].contextTokens
    ensures !LanesWrite(p, n)
  {
    if lane < n - 1 {
      LanesFailToWrite(p, n - 1, lane);
    }
  }

  /** What a commit does: it marks the blocks of `marked` and makes stale those of `written`. */
  ghost predicate Commits(v: View, w: View, marked: set<KvKey>, written: set<KvKey>) {
    exists m: View :: Marks(v, m, marked) && GoesStale(m, w, written)
  }

  /** The blocks a lane has written, when it writes within its context. */
  lemma WrittenRange(p: Packet, lane: nat)
    requires lane < |p.lanes| && p.blockTokens > 0 && p.writtenPositions > 0 && LaneBlocks(p, lane) <= 0xFFFF_FFFF
    requires var x := p.lanes[lane];
      && x.position + p.writtenPositions <= x.contextTokens
      && x.position + p.writtenPositions <= 0x1_0000_0000_0000_0000
    ensures FirstWritten(p, lane) == BlockOf(p.lanes[lane].position, p.blockTokens)
    ensures LastWritten(p, lane) == BlockOf(p.lanes[lane].position + p.writtenPositions - 1, p.blockTokens)
  {
    var x := p.lanes[lane];
    PositionIsCovered(x.position + p.writtenPositions - 1, x.contextTokens, p.blockTokens);
    PositionIsCovered(x.position, x.contextTokens, p.blockTokens);
  }

  /** A block lies between two positions' blocks exactly when it holds one of the positions between them. */
  lemma BetweenIffHeld(from: nat, to: nat, blockTokens: nat, block: nat)
    requires blockTokens > 0 && from <= to
    ensures BlockOf(from, blockTokens) <= block <= BlockOf(to, blockTokens) <==>
      exists q: nat :: from <= q <= to && BlockOf(q, blockTokens) == block
  {
    forall q: nat | from <= q <= to
      ensures BlockOf(from, blockTokens) <= BlockOf(q, blockTokens) <= BlockOf(to, blockTokens)
    {
      BlockOfIncreases(from, q, blockTokens);
      BlockOfIncreases(q, to, blockTokens);
    }
    if BlockOf(from, blockTokens) < block <= BlockOf(to, blockTokens) {
      BlockStartsAt(block, blockTokens);
      EndTokenIncreases(BlockOf(from, blockTokens) + 1, block, blockTokens);
      EndTokenIncreases(block, BlockOf(to, blockTokens), blockTokens);
      assert from <= EndToken(block, blockTokens) <= to;
    }
  }

  /** A block lies between the first and the last written one exactly when a position in it is written. */
  lemma WrittenIffBetween(p: Packet, lane: nat, block: nat)
    requires lane < |p.lanes| && p.blockTokens > 0 && p.writtenPositions > 0 && LaneBlocks(p, lane) <= 0xFFFF_FFFF
    requires var x := p.lanes[lane];
      && x.position + p.writtenPositions <= x.contextTokens
      && x.position + p.writtenPositions <= 0x1_0000_0000_0000_0000
    ensures FirstWritten(p, lane) <= block <= LastWritten(p, lane) <==>
      exists q: nat ::
        && p.lanes[lane].position <= q <= p.lanes[lane].position + p.writtenPositions - 1
        && BlockOf(q, p.blockTokens) == block
  {
    WrittenRange(p, lane);
    BetweenIffHeld(p.lanes[lane].position, p.lanes[lane].position + p.writtenPositions - 1, p.blockTokens, block);
  }

  lemma {:induction false} SlotIsWritten(mix: Mixer, p: Packet, n: nat, lane: nat, block: nat)
    requires lane < n <= |p.lanes| && p.blockTokens > 0 && p.writtenPositions > 0
    requires FirstWritten(p, lane) <= block <= LastWritten(p, lane)
    ensures SlotKey(mix, p, lane, block) in WrittenSlots(mix, p, n)
  {
    if lane < n - 1 {
      SlotIsWritten(mix, p, n - 1, lane, block);
    }
  }

  lemma CommittedIsStale(v: View, w: View, marked: set<KvKey>, written: set<KvKey>, dk: KvKey)
    requires Commits(v, w, marked, written) && dk in written && dk in v.dir && v.dir[dk] in v.blk
    ensures w.dir == v.dir && v.dir[dk] in w.blk && !w.blk[v.dir[dk]].backingValid
  {
    assert v.dir[dk] in NamedBy(v.dir, written);
  }

  /** The slot of the block that holds a written position. */
  lemma PositionIsWritten(mix: Mixer, p: Packet, lane: nat, position: nat)
    requires lane < p.active <= |p.lanes| && p.blockTokens > 0 && p.writtenPositions > 0
    requires LaneBlocks(p, lane) <= 0xFFFF_FFFF
    requires var x := p.lanes[lane];
      && x.position <= position < x.position + p.writtenPositions <= x.contextTokens
      && x.position + p.writtenPositions <= 0x1_0000_0000_0000_0000
    ensures SlotKey(mix, p, lane, BlockOf(position, p.blockTokens)) in WrittenSlots(mix, p, p.active)
  {
    var x, block := p.lanes[lane], BlockOf(position, p.blockTokens);
    WrittenRange(p, lane);
    BlockOfIncreases(x.position, position, p.blockTokens);
    BlockOfIncreases(position, x.position + p.writtenPositions - 1, p.blockTokens);
    SlotIsWritten(mix, p, p.active, lane, block);
  }

  /** After a commit, the block that holds any written position has a stale backing copy. */
  lemma WrittenBlockIsStale(mix: Mixer, p: Packet, v: View, w: View, marked: set<KvKey>, lane: nat, position: nat)
    requires lane < p.active <= |p.lanes| && p.blockTokens > 0 && p.writtenPositions > 0
    requires LaneBlocks(p, lane) <= 0xFFFF_FFFF
    requires var x := p.lanes[lane];
      && x.position <= position < x.position + p.writtenPositions <= x.contextTokens
      && x.position + p.writtenPositions <= 0x1_0000_0000_0000_0000
    requires Commits(v, w, marked, WrittenSlots(mix, p, p.active))
    requires var dk := SlotKey(mix, p, lane, BlockOf(position, p.blockTokens)); dk in v.dir && v.dir[dk] in v.blk
    ensures var dk := SlotKey(mix, p, lane, BlockOf(position, p.blockTokens));
      w.dir == v.dir && v.dir[dk] in w.blk && !w.blk[v.dir[dk]].backingValid
  {
    PositionIsWritten(mix, p, lane, position);
    CommittedIsStale(v, w, marked, WrittenSlots(mix, p, p.active),
                     SlotKey(mix, p, lane, BlockOf(position, p.blockTokens)));
  }

  // ---- Cancel and release: slots are unbound -------------------------------

  /** A block has the same place, backing slot and readiness; only its references may differ. */
  ghost predicate BlockStays(v: View, w: View, bk: KvKey)
    requires bk in w.blk && |w.states| == |v.states| && |w.lastUsed| == |v.lastUsed|
  {
    && bk in v.blk && w.blk[bk] == v.blk[bk].(refs := w.blk[bk].refs)
    && var q := v.blk[bk].physical;
       && (q < |v.states| ==> w.states[q] == v.states[q])
       && (q < |v.lastUsed| ==> w.lastUsed[q] == v.lastUsed[q])
  }

  /** Slots are only unbound, and every block that is left is where and as ready as it was. */
  ghost predicate OnlyUnbinds(v: View, w: View) {
    && w.dir.Keys <= v.dir.Keys && (forall dk :: dk in w.dir ==> w.dir[dk] == v.dir[dk])
    && KeepsPinned(v, w) && w.pins == v.pins && w.epoch == v.epoch && w.backingCapacity == v.backingCapacity
    && |w.states| == |v.states| && |w.lastUsed| == |v.lastUsed| && w.gpu == v.gpu && w.disk == v.disk
    && forall bk :: bk in w.blk ==> BlockStays(v, w, bk)
  }

  lemma NothingUnbound(v: View)
    ensures OnlyUnbinds(v, v)
  {
  }

  lemma UnbindsChain(u: View, v: View, w: View)
    requires OnlyUnbinds(u, v) && OnlyUnbinds(v, w)
    ensures OnlyUnbinds(u, w)
  {
    forall bk | bk in w.blk ensures BlockStays(u, w, bk) {
      assert BlockStays(v, w, bk) && BlockStays(u, v, bk);
    }
  }

  lemma ReleaseOnlyUnbinds(v: View, dk: KvKey)
    requires Coherent(v) && dk in v.dir && BlockStored(v, v.dir[dk])
    requires v.blk[v.dir[dk]].refs == 1 ==> !IsPinned(v, v.dir[dk])
    ensures OnlyUnbinds(v, Dropped(v, v.dir[dk]).(dir := v.dir - {dk}))
  {
    var w := Dropped(v, v.dir[dk]).(dir := v.dir - {dk});
    ReleaseKeepsCoherent(v, dk);
    OpenCoherent(v);
    forall bk | bk in w.blk ensures BlockStays(v, w, bk) {
      assert BlockStored(v, bk);
    }
  }

  /** Exactly the slots in `slots` are unbound. */
  ghost predicate Unbinds(v: View, w: View, slots: set<KvKey>) {
    OnlyUnbinds(v, w) && w.dir == v.dir - slots
  }

  lemma UnbindsMore(u: View, v: View, w: View, slots: set<KvKey>, more: set<KvKey>)
    requires Unbinds(u, v, slots) && Unbinds(v, w, more)
    ensures Unbinds(u, w, slots + more)
  {
    UnbindsChain(u, v, w);
  }

  ghost function UnbindSeal(v: View, w: View, slots: set<KvKey>, depth: nat): nat {
    if depth > 0 then UnbindSeal(v, w, slots, depth - 1) else if Unbinds(v, w, slots) then 1 else 0
  }

  /** `Unbinds`, sealed behind a recursion the verifier does not unroll. */
  ghost predicate Unbinding(v: View, w: View, slots: set<KvKey>) {
    UnbindSeal(v, w, slots, v.epoch + 2) == 1
  }

  lemma {:induction false} UnsealUnbinding(v: View, w: View, slots: set<KvKey>, depth: nat)
    ensures UnbindSeal(v, w, slots, depth) == 1 <==> Unbinds(v, w, slots)
  {
    if depth > 0 {
      UnsealUnbinding(v, w, slots, depth - 1);
    }
  }

  lemma OpenUnbinding(v: View, w: View, slots: set<KvKey>)
    ensures Unbinding(v, w, slots) <==> Unbinds(v, w, slots)
  {
    UnsealUnbinding(v, w, slots, v.epoch + 2);
  }

  lemma NothingUnbinding(v: View)
    ensures Unbinding(v, v, {})
  {
    NothingUnbound(v);
    assert v.dir - {} == v.dir;
    OpenUnbinding(v, v, {});
  }

  lemma NothingUnbindsOne(v: View, dk: KvKey)
    requires dk !in v.dir
    ensures Unbinding(v, v, {dk})
  {
    NothingUnbound(v);
    assert v.dir - {dk} == v.dir;
    OpenUnbinding(v, v, {dk});
  }

  lemma UnbindingMore(u: View, v: View, w: View, slots: set<KvKey>, more: set<KvKey>)
    requires Unbinding(u, v, slots) && Unbinding(v, w, more)
    ensures Unbinding(u, w, slots + more)
  {
    OpenUnbinding(u, v, slots);
    OpenUnbinding(v, w, more);
    UnbindsMore(u, v, w, slots, more);
    OpenUnbinding(u, w, slots + more);
  }

  /** A pin holds a block that only slots in `slots` name. */
  ghost predicate PinHolds(v: View, slots: set<KvKey>) {
    exists bk :: IsPinned(v, bk) && Namers(v.dir, bk) <= slots
  }

  ghost function StuckSeal(v: View, slots: set<KvKey>, depth: nat): nat {
    if depth > 0 then StuckSeal(v, slots, depth - 1) else if PinHolds(v, slots) then 1 else 0
  }

  /** `PinHolds`, sealed behind a recursion the verifier does not unroll: unbinding `slots` is refused. */
  ghost predicate Stuck(v: View, slots: set<KvKey>) {
    StuckSeal(v, slots, v.epoch + 2) == 1
  }

  lemma {:induction false} UnsealStuck(v: View, slots: set<KvKey>, depth: nat)
    ensures StuckSeal(v, slots, depth) == 1 <==> PinHolds(v, slots)
  {
    if depth > 0 {
      UnsealStuck(v, slots, depth - 1);
    }
  }

  lemma OpenStuck(v: View, slots: set<KvKey>)
    ensures Stuck(v, slots) <==> PinHolds(v, slots)
  {
    UnsealStuck(v, slots, v.epoch + 2);
  }

  lemma MoreIsStuck(v: View, slots: set<KvKey>, more: set<KvKey>)
    requires Stuck(v, slots) && slots <= more
    ensures Stuck(v, more)
  {
    OpenStuck(v, slots);
    OpenStuck(v, more);
    var bk :| IsPinned(v, bk) && Namers(v.dir, bk) <= slots;
    assert Namers(v.dir, bk) <= more;
  }

  lemma IdleIsNotStuck(v: View, slots: set<KvKey>)
    requires Idle(v)
    ensures !Stuck(v, slots)
  {
    OpenStuck(v, slots);
  }

  /** What has been unbound was not stuck. */
  lemma UnboundWasFree(v: View, w: View, slots: set<KvKey>)
    requires Coherent(v) && Coherent(w) && Unbinding(v, w, slots)
    ensures !Stuck(v, slots)
  {
    OpenUnbinding(v, w, slots);
    OpenStuck(v, slots);
    OpenCoherent(w);
    forall bk | IsPinned(v, bk) ensures !(Namers(v.dir, bk) <= slots) {
      assert bk in w.blk && NameCount(w.dir, bk) > 0;
      var dk :| dk in Namers(w.dir, bk);
      assert dk in Namers(v.dir, bk) && dk !in slots;
    }
  }

  /** A slot that cannot be unbound is the last to name a pinned block. */
  lemma RefusedIsStuck(v: View, dk: KvKey)
    requires Coherent(v) && dk in v.dir && IsPinned(v, v.dir[dk]) && v.blk[v.dir[dk]].refs == 1
    ensures Stuck(v, {dk})
  {
    OpenStuck(v, {dk});
    OpenCoherent(v);
    UnsharedHasOneNamer(v, dk);
    assert Namers(v.dir, v.dir[dk]) <= {dk};
  }

  /** What is stuck after some slots are unbound was stuck with them. */
  lemma StuckLater(v: View, u: View, gone: set<KvKey>, slots: set<KvKey>)
    requires Unbinding(v, u, gone) && Stuck(u, slots)
    ensures Stuck(v, gone + slots)
  {
    OpenUnbinding(v, u, gone);
    OpenStuck(u, slots);
    OpenStuck(v, gone + slots);
    var bk :| IsPinned(u, bk) && Namers(u.dir, bk) <= slots;
    forall k | k in Namers(v.dir, bk) ensures k in gone + slots {
      if k !in gone {
        assert k in Namers(u.dir, bk);
      }
    }
    assert IsPinned(v, bk);
  }

  /** Every one of the first `n` lanes has blocks, and no more than `limit`. */
  predicate LanesWithin(p: Packet, n: nat, limit: nat)
    requires n <= |p.lanes|
  {
    n == 0 || (LanesWithin(p, n - 1, limit) && 0 < LaneBlocks(p, n - 1) <= limit)
  }

  lemma {:induction false} LanesWithinEach(p: Packet, n: nat, limit: nat, lane: nat)
    requires lane < n <= |p.lanes| && LanesWithin(p, n, limit)
    ensures 0 < LaneBlocks(p, lane) <= limit
  {
    if lane < n - 1 {
      LanesWithinEach(p, n - 1, limit, lane);
    }
  }

  lemma LanesFailToRelease(mix: Mixer, p: Packet, v: View, u: View, lane: nat, limit: nat)
    requires lane < p.active <= |p.lanes| && Unbinding(v, u, PacketSlots(mix, p, lane))
    requires LaneBlocks(p, lane) == 0 || LaneBlocks(p, lane) > limit
             || Stuck(u, LaneSlots(mix, p, lane, LaneBlocks(p, lane)))
    ensures !LanesWithin(p, p.active, limit) || Stuck(v, PacketSlots(mix, p, p.active))
  {
    if LanesWithin(p, p.active, limit) {
      LanesWithinEach(p, p.active, limit, lane);
      StuckLater(v, u, PacketSlots(mix, p, lane), LaneSlots(mix, p, lane, LaneBlocks(p, lane)));
      PacketSlotsGrow(mix, p, lane + 1, p.active);
      MoreIsStuck(v, PacketSlots(mix, p, lane + 1), PacketSlots(mix, p, p.active));
    }
  }

  // ---- Cancel: which slots go ----------------------------------------------

  /** The slots in `slots` that name a block in flight. */
  ghost function Cancelled(v: View, slots: set<KvKey>): set<KvKey> {
    set dk | dk in slots && dk in v.dir && InFlightBlock(v, v.dir[dk])
  }

  /** Unbinding slots puts nothing in flight and takes nothing out of flight that stays. */
  lemma InFlightStays(v: View, w: View, dk: KvKey)
    requires OnlyUnbinds(v, w) && Coherent(w) && dk in w.dir
    ensures InFlightBlock(w, w.dir[dk]) <==> InFlightBlock(v, v.dir[dk])
  {
    BoundSlot(w, dk);
    assert BlockStays(v, w, w.dir[dk]);
  }

  ghost function CancelSeal(v: View, w: View, seen: set<KvKey>, depth: nat): nat {
    if depth > 0 then CancelSeal(v, w, seen, depth - 1) else if Unbinds(v, w, Cancelled(v, seen)) then 1 else 0
  }

  /**
   * Exactly the slots in `seen` that name a block in flight are unbound. Sealed behind a recursion the verifier does
   * not unroll.
   */
  ghost predicate Cancels(v: View, w: View, seen: set<KvKey>) {
    CancelSeal(v, w, seen, v.epoch + 2) == 1
  }

  lemma {:induction false} UnsealCancel(v: View, w: View, seen: set<KvKey>, depth: nat)
    ensures CancelSeal(v, w, seen, depth) == 1 <==> Unbinds(v, w, Cancelled(v, seen))
  {
    if depth > 0 {
      UnsealCancel(v, w, seen, depth - 1);
    }
  }

  lemma OpenCancels(v: View, w: View, seen: set<KvKey>)
    ensures Cancels(v, w, seen) <==> Unbinds(v, w, Cancelled(v, seen))
  {
    UnsealCancel(v, w, seen, v.epoch + 2);
  }

  lemma NothingCancelled(v: View)
    ensures Cancels(v, v, {})
  {
    NothingUnbound(v);
    assert v.dir - Cancelled(v, {}) == v.dir;
    OpenCancels(v, v, {});
  }

  lemma CancelledLater(v: View, u: View, seen: set<KvKey>, more: set<KvKey>)
    requires Unbinds(v, u, Cancelled(v, seen)) && Coherent(u)
    ensures Cancelled(v, seen) + Cancelled(u, more) == Cancelled(v, seen + more)
  {
    forall dk | dk in v.dir
      ensures dk in Cancelled(v, seen) + Cancelled(u, more) <==> dk in Cancelled(v, seen + more)
    {
      if dk in u.dir {
        InFlightStays(v, u, dk);
      } else {
        assert dk in Cancelled(v, seen);
      }
    }
  }

  /** Cancelling some slots and then others cancels both. */
  lemma CancelsChain(v: View, u: View, w: View, seen: set<KvKey>, more: set<KvKey>)
    requires Cancels(v, u, seen) && Cancels(u, w, more) && Coherent(u)
    ensures Cancels(v, w, seen + more)
  {
    OpenCancels(v, u, seen);
    OpenCancels(u, w, more);
    OpenCancels(v, w, seen + more);
    CancelledLater(v, u, seen, more);
    UnbindsMore(v, u, w, Cancelled(v, seen), Cancelled(u, more));
  }

  /** A cell without a block in flight keeps its slot. */
  lemma CancelsNone(v: View, dk: KvKey)
    requires dk in v.dir ==> !InFlightBlock(v, v.dir[dk])
    ensures Cancels(v, v, {dk})
  {
    NothingUnbound(v);
    assert v.dir - Cancelled(v, {dk}) == v.dir;
    OpenCancels(v, v, {dk});
  }

  /** A cell with a block in flight loses its slot. */
  lemma CancelsOne(v: View, dk: KvKey)
    requires Coherent(v) && dk in v.dir && BlockStored(v, v.dir[dk]) && InFlightBlock(v, v.dir[dk])
    requires v.blk[v.dir[dk]].refs == 1 ==> !IsPinned(v, v.dir[dk])
    ensures Cancels(v, Dropped(v, v.dir[dk]).(dir := v.dir - {dk}), {dk})
  {
    ReleaseOnlyUnbinds(v, dk);
    assert Cancelled(v, {dk}) == {dk};
    OpenCancels(v, Dropped(v, v.dir[dk]).(dir := v.dir - {dk}), {dk});
  }

  lemma CancelIsStuck(v: View, dk: KvKey)
    requires Coherent(v) && dk in v.dir && InFlightBlock(v, v.dir[dk]) && IsPinned(v, v.dir[dk])
    requires v.blk[v.dir[dk]].refs == 1
    ensures Stuck(v, Cancelled(v, {dk}))
  {
    RefusedIsStuck(v, dk);
    MoreIsStuck(v, {dk}, Cancelled(v, {dk}));
  }

  lemma CancelStuckLater(v: View, u: View, seen: set<KvKey>, more: set<KvKey>, all: set<KvKey>)
    requires Cancels(v, u, seen) && Coherent(u) && Stuck(u, Cancelled(u, more)) && seen + more <= all
    ensures Stuck(v, Cancelled(v, all))
  {
    OpenCancels(v, u, seen);
    OpenUnbinding(v, u, Cancelled(v, seen));
    StuckLater(v, u, Cancelled(v, seen), Cancelled(u, more));
    CancelledLater(v, u, seen, more);
    MoreIsStuck(v, Cancelled(v, seen + more), Cancelled(v, all));
  }

  // ---- Prefetch lists ------------------------------------------------------

  /** Entry `e` names a swapped block with a valid backing copy, where it is backed, not yet marked. */
  ghost predicate Fetchable(v: View, e: (KvKey, nat), mark: nat) {
    && e.0 in v.blk && !v.blk[e.0].onGpu && v.blk[e.0].backingValid
    && v.blk[e.0].backing == e.1 && v.blk[e.0].prefetchMark != mark
  }

  ghost function Fetched(v: View, bk: KvKey, mark: nat): View
    requires bk in v.blk
  {
    v.(blk := v.blk[bk := v.blk[bk].(prefetchMark := mark)])
  }

  /** The blocks a list names. */
  ghost function Listed(entries: seq<(KvKey, nat)>): set<KvKey> {
    set i | 0 <= i < |entries| :: entries[i].0
  }

  /** `entries` lists exactly the blocks that have been marked since `v`, each once; nothing else has changed. */
  ghost predicate Collected(v: View, w: View, mark: nat, entries: seq<(KvKey, nat)>) {
    && w == v.(blk := w.blk) && w.blk.Keys == v.blk.Keys
    && (forall i :: 0 <= i < |entries| ==> Fetchable(v, entries[i], mark))
    && (forall i, j :: 0 <= i < j < |entries| ==> entries[i].0 != entries[j].0)
    && forall bk :: bk in v.blk ==>
         w.blk[bk] == if bk in Listed(entries) then v.blk[bk].(prefetchMark := mark) else v.blk[bk]
  }

  lemma CollectOneMore(v: View, u: View, mark: nat, entries: seq<(KvKey, nat)>, e: (KvKey, nat))
    requires Collected(v, u, mark, entries) && Fetchable(u, e, mark)
    ensures Collected(v, Fetched(u, e.0, mark), mark, entries + [e]) && Listed(entries + [e]) == Listed(entries) + {e.0}
  {
    var longer := entries + [e];
    assert e.0 !in Listed(entries);
    forall bk ensures bk in Listed(longer) <==> bk in Listed(entries) || bk == e.0 {
      if bk in Listed(entries) {
        var i :| 0 <= i < |entries| && entries[i].0 == bk;
        assert longer[i].0 == bk;
      }
      assert longer[|entries|] == e;
    }
  }

  lemma {:induction false} ListedAreCounted(entries: seq<(KvKey, nat)>)
    requires forall i, j :: 0 <= i < j < |entries| ==> entries[i].0 != entries[j].0
    ensures |Listed(entries)| == |entries|
  {
    if entries != [] {
      var last := |entries| - 1;
      ListedAreCounted(entries[..last]);
      assert Listed(entries) == Listed(entries[..last]) + {entries[last].0} by {
        forall bk | bk in Listed(entries) ensures bk in Listed(entries[..last]) + {entries[last].0} {
          var i :| 0 <= i < |entries| && entries[i].0 == bk;
          assert i < last ==> entries[..last][i].0 == bk;
        }
      }
    }
  }

  /** The swapped blocks that slots in `slots` name and that do not bear the mark. */
  ghost function ToFetch(v: View, mark: nat, slots: set<KvKey>): set<KvKey> {
    set bk | bk in NamedBy(v.dir, slots) && bk in v.blk && Fetchable(v, (bk, v.blk[bk].backing), mark)
  }

  /** `entries` lists, each once, exactly the blocks to fetch for `slots`, and these are marked. */
  ghost predicate Collects(v: View, w: View, mark: nat, entries: seq<(KvKey, nat)>, slots: set<KvKey>) {
    Collected(v, w, mark, entries) && Listed(entries) == ToFetch(v, mark, slots)
  }

  lemma NothingCollected(v: View, mark: nat)
    ensures Collects(v, v, mark, [], {})
  {
  }

  lemma MoreToFetch(v: View, mark: nat, slots: set<KvKey>, more: set<KvKey>)
    ensures ToFetch(v, mark, slots + more) == ToFetch(v, mark, slots) + ToFetch(v, mark, more)
  {
    assert NamedBy(v.dir, slots + more) == NamedBy(v.dir, slots) + NamedBy(v.dir, more);
  }

  /** Looking at one more slot adds its block, if there is one to fetch. */
  lemma CollectSlot(v: View, u: View, mark: nat, entries: seq<(KvKey, nat)>, slots: set<KvKey>, dk: KvKey,
                    e: Option<(KvKey, nat)>)
    requires Collects(v, u, mark, entries, slots) && (e.Some? ==> Fetchable(u, e.value, mark))
    requires ToFetch(u, mark, {dk}) == match e case Some(x) => {x.0} case None => {}
    ensures e.None? ==> Collects(v, u, mark, entries, slots + {dk})
    ensures e.Some? ==> Collects(v, Fetched(u, e.value.0, mark), mark, entries + [e.value], slots + {dk})
  {
    MoreToFetch(v, mark, slots, {dk});
    assert ToFetch(v, mark, {dk}) <= Listed(entries) + ToFetch(u, mark, {dk});
    assert ToFetch(u, mark, {dk}) <= ToFetch(v, mark, {dk});
    if e.Some? {
      CollectOneMore(v, u, mark, entries, e.value);
    }
  }

  /** Blocks only gain the mark. */
  ghost predicate OnlyMarks(v: View, w: View, mark: nat) {
    && w == v.(blk := w.blk) && w.blk.Keys == v.blk.Keys
    && forall bk :: bk in v.blk ==> w.blk[bk] == v.blk[bk] || w.blk[bk] == v.blk[bk].(prefetchMark := mark)
  }

  /** A packet whose blocks are fetched ahead: of the generation, and not to be released. */
  predicate IsFetched(p: Packet, generation: nat) {
    p.generation == generation && !p.releases
  }

  /** The slots of a packet, if it is fetched ahead. */
  ghost function FetchSlotsOf(mix: Mixer, p: Packet, generation: nat): set<KvKey> {
    if IsFetched(p, generation) && p.active <= |p.lanes| then PacketSlots(mix, p, p.active) else {}
  }

  /** The slots of the first `n` packets that are fetched ahead. */
  ghost function FetchSlots(mix: Mixer, packets: seq<Packet>, generation: nat, n: nat): set<KvKey>
    requires n <= |packets|
  {
    if n == 0 then {}
    else FetchSlots(mix, packets, generation, n - 1) + FetchSlotsOf(mix, packets[n - 1], generation)
  }

  lemma {:induction false} FetchSlotsGrow(mix: Mixer, packets: seq<Packet>, generation: nat, n: nat, m: nat)
    requires n <= m <= |packets|
    ensures FetchSlots(mix, packets, generation, n) <= FetchSlots(mix, packets, generation, m)
  {
    if n < m {
      FetchSlotsGrow(mix, packets, generation, n, m - 1);
    }
  }

  ghost function CollectSeal(v: View, w: View, mark: nat, entries: seq<(KvKey, nat)>, slots: set<KvKey>,
                             depth: nat): nat
  {
    if depth > 0 then CollectSeal(v, w, mark, entries, slots, depth - 1)
    else if Collects(v, w, mark, entries, slots) then 1 else 0
  }

  /** `Collects`, sealed behind a recursion the verifier does not unroll. */
  ghost predicate Gathered(v: View, w: View, mark: nat, entries: seq<(KvKey, nat)>, slots: set<KvKey>) {
    CollectSeal(v, w, mark, entries, slots, mark + 2) == 1
  }

  lemma {:induction false} UnsealCollect(v: View, w: View, mark: nat, entries: seq<(KvKey, nat)>, slots: set<KvKey>,
                                         depth: nat)
    ensures CollectSeal(v, w, mark, entries, slots, depth) == 1 <==> Collects(v, w, mark, entries, slots)
  {
    if depth > 0 {
      UnsealCollect(v, w, mark, entries, slots, depth - 1);
    }
  }

  lemma OpenGathered(v: View, w: View, mark: nat, entries: seq<(KvKey, nat)>, slots: set<KvKey>)
    ensures Gathered(v, w, mark, entries, slots) <==> Collects(v, w, mark, entries, slots)
  {
    UnsealCollect(v, w, mark, entries, slots, mark + 2);
  }

  ghost function OverflowSeal(v: View, w: View, mark: nat, slots: set<KvKey>, capacity: nat, depth: nat): nat {
    if depth > 0 then OverflowSeal(v, w, mark, slots, capacity, depth - 1)
    else if |ToFetch(v, mark, slots)| > capacity && OnlyMarks(v, w, mark) then 1 else 0
  }

  /** More blocks were to be fetched than fit, and blocks have only gained the mark. Sealed. */
  ghost predicate Overflows(v: View, w: View, mark: nat, slots: set<KvKey>, capacity: nat) {
    OverflowSeal(v, w, mark, slots, capacity, mark + 2) == 1
  }

  lemma {:induction false} UnsealOverflow(v: View, w: View, mark: nat, slots: set<KvKey>, capacity: nat, depth: nat)
    ensures OverflowSeal(v, w, mark, slots, capacity, depth) == 1 <==>
      |ToFetch(v, mark, slots)| > capacity && OnlyMarks(v, w, mark)
  {
    if depth > 0 {
      UnsealOverflow(v, w, mark, slots, capacity, depth - 1);
    }
  }

  lemma OpenOverflows(v: View, w: View, mark: nat, slots: set<KvKey>, capacity: nat)
    ensures Overflows(v, w, mark, slots, capacity) <==>
      |ToFetch(v, mark, slots)| > capacity && OnlyMarks(v, w, mark)
  {
    UnsealOverflow(v, w, mark, slots, capacity, mark + 2);
  }

  /** What looking at one slot finds and does. */
  ghost predicate Looks(v: View, w: View, mark: nat, dk: KvKey, e: Option<(KvKey, nat)>) {
    && ToFetch(v, mark, {dk}) == (match e case Some(x) => {x.0} case None => {})
    && if e.Some? then Fetchable(v, e.value, mark) && w == Fetched(v, e.value.0, mark) else w == v
  }

  /** One more cell of a lane. */
  lemma GatherCell(mix: Mixer, sequence: nat, block: nat, before: set<KvKey>, v: View, u: View, w: View, mark: nat,
                   entries: seq<(KvKey, nat)>, e: Option<(KvKey, nat)>)
    requires Gathered(v, u, mark, entries, before + SequenceSlots(mix, sequence, block))
    requires Looks(u, w, mark, PrivateKey(mix, sequence, block), e)
    ensures var list := match e case Some(x) => entries + [x] case None => entries;
      Gathered(v, w, mark, list, before + SequenceSlots(mix, sequence, block + 1))
  {
    var dk, slots := PrivateKey(mix, sequence, block), SequenceSlots(mix, sequence, block);
    OpenGathered(v, u, mark, entries, before + slots);
    CollectSlot(v, u, mark, entries, before + slots, dk, e);
    assert before + slots + {dk} == before + SequenceSlots(mix, sequence, block + 1);
    OpenGathered(v, w, mark, match e case Some(x) => entries + [x] case None => entries, before + slots + {dk});
  }

  /** A list that is longer than allowed leaves no room for a larger search. */
  lemma GatheredTooMany(v: View, w: View, mark: nat, entries: seq<(KvKey, nat)>, slots: set<KvKey>, all: set<KvKey>,
                        capacity: nat)
    requires Gathered(v, w, mark, entries, slots) && |entries| > capacity && slots <= all
    ensures Overflows(v, w, mark, all, capacity)
  {
    OpenGathered(v, w, mark, entries, slots);
    ListedAreCounted(entries);
    MoreToFetch(v, mark, slots, all);
    assert slots + all == all;
    SubsetIsSmaller(ToFetch(v, mark, slots), ToFetch(v, mark, all));
    OpenOverflows(v, w, mark, all, capacity);
  }

  lemma NothingGathered(v: View, mark: nat)
    ensures Gathered(v, v, mark, [], {})
  {
    NothingCollected(v, mark);
    OpenGathered(v, v, mark, [], {});
  }

  /** The cells of one more lane. */
  lemma GatherLane(mix: Mixer, p: Packet, lane: nat, before: set<KvKey>)
    requires lane < p.active <= |p.lanes|
    ensures before + PacketSlots(mix, p, lane) + LaneSlots(mix, p, lane, LaneBlocks(p, lane))
            == before + PacketSlots(mix, p, lane + 1) <= before + PacketSlots(mix, p, p.active)
  {
    PacketSlotsGrow(mix, p, lane + 1, p.active);
  }

  ghost function MarkSeal(v: View, w: View, mark: nat, depth: nat): nat {
    if depth > 0 then MarkSeal(v, w, mark, depth - 1) else if OnlyMarks(v, w, mark) then 1 else 0
  }

  /** `OnlyMarks`, sealed behind a recursion the verifier does not unroll. */
  ghost predicate Marking(v: View, w: View, mark: nat) {
    MarkSeal(v, w, mark, mark + 2) == 1
  }

  lemma {:induction false} UnsealMarks(v: View, w: View, mark: nat, depth: nat)
    ensures MarkSeal(v, w, mark, depth) == 1 <==> OnlyMarks(v, w, mark)
  {
    if depth > 0 {
      UnsealMarks(v, w, mark, depth - 1);
    }
  }

  lemma OpenMarking(v: View, w: View, mark: nat)
    ensures Marking(v, w, mark) <==> OnlyMarks(v, w, mark)
  {
    UnsealMarks(v, w, mark, mark + 2);
  }

  lemma GatheringMarks(v: View, w: View, mark: nat, entries: seq<(KvKey, nat)>, slots: set<KvKey>)
    requires Gathered(v, w, mark, entries, slots)
    ensures Marking(v, w, mark)
  {
    OpenGathered(v, w, mark, entries, slots);
    OpenMarking(v, w, mark);
  }

  lemma GatheredIsAll(v: View, w: View, mark: nat, entries: seq<(KvKey, nat)>, slots: set<KvKey>)
    requires Gathered(v, w, mark, entries, slots)
    ensures Collects(v, w, mark, entries, slots) && |ToFetch(v, mark, slots)| == |entries|
  {
    OpenGathered(v, w, mark, entries, slots);
    ListedAreCounted(entries);
  }

  lemma OverflowGrows(v: View, w: View, mark: nat, slots: set<KvKey>, all: set<KvKey>, capacity: nat)
    requires Overflows(v, w, mark, slots, capacity) && slots <= all
    ensures Overflows(v, w, mark, all, capacity)
  {
    OpenOverflows(v, w, mark, slots, capacity);
    OpenOverflows(v, w, mark, all, capacity);
    MoreToFetch(v, mark, slots, all);
    assert slots + all == all;
    SubsetIsSmaller(ToFetch(v, mark, slots), ToFetch(v, mark, all));
  }

  /** The low 29 bits of the prefetch generation. */
  function PrefetchMark(generation: nat): nat {
    generation % 0x2000_0000
  }
}
