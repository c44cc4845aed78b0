/**
 * What a built block table means: for every cell of a packet, the block it names
 * and with whom it shares it, in terms of the directory and the pins from which
 * the build started.
 */
module KvBuilt {
  import opened Blocks
  import opened KvIndex
  import opened KvView
  import opened KvSealed
  import opened KvReadiness
  import opened KvLanes
  import opened KvDirectory

  /** `v` and `t` are what a build of `p` leaves that starts from `u`, or from nothing when `u` is forgotten. */
  ghost predicate BuiltFrom(g: Geometry, p: Packet, t: Table, u: View, kept: bool, v: View) {
    && p.active <= |p.lanes| && Coherent(v) && SlotsDistinct(g.mix, p)
    && Built(g, p, t, v, p.active) && Binds(g.mix, t.sharing, p, u, kept, v)
  }

  /** The slot of a cell names, when the build starts, another block than `key`, and a pin holds that block. */
  ghost predicate IsHeld(u: View, kept: bool, dk: KvKey, key: KvKey) {
    kept && dk in u.dir && u.dir[dk] != key && IsPinned(u, u.dir[dk])
  }

  /** The block a cell names after the build. */
  ghost function NamedBlock(g: Geometry, s: Sharing, p: Packet, u: View, kept: bool, lane: nat, block: nat): KvKey
    requires IsCell(p, lane, block)
  {
    var dk, key := SlotKey(g.mix, p, lane, block), WantedKey(g.mix, s, p, lane, block);
    if IsHeld(u, kept, dk, key) then u.dir[dk] else key
  }

  /**
   * Every cell records the slot of the block it names: the one it asked for, unless a pin held another. The block
   * is resident, or in flight where the packet may start one.
   */
  lemma CellNamesItsBlock(g: Geometry, p: Packet, t: Table, u: View, kept: bool, v: View, lane: nat, block: nat)
    requires BuiltFrom(g, p, t, u, kept, v) && IsCell(p, lane, block)
    ensures Cell(g.laneStride, lane, block) < |t.cells|
    ensures var dk := SlotKey(g.mix, p, lane, block);
      && Placed(v, dk, t.cells[Cell(g.laneStride, lane, block)])
      && v.dir[dk] == NamedBlock(g, t.sharing, p, u, kept, lane, block)
    ensures t.cells[Cell(g.laneStride, lane, block)] < |v.states|
    ensures IsReady(p, lane, block, v.states[t.cells[Cell(g.laneStride, lane, block)]])
  {
    FilledMeans((g.mix, g.laneStride), t.sharing, p, t.cells, v, p.active, 0, lane, block);
    PacketDirectoryAt(g.mix, t.sharing, p, Kept(u, kept).dir, PinnedBlocks(Kept(u, kept)), p.active, lane, block);
    BoundSlot(v, SlotKey(g.mix, p, lane, block));
  }

  /** A build changes the readiness of no block but those its cells name. */
  lemma OthersStayAsReady(g: Geometry, p: Packet, t: Table, u: View, kept: bool, v: View, bk: KvKey)
    requires BuiltFrom(g, p, t, u, kept, v) && bk in v.blk
    requires forall l: nat, b: nat :: IsCell(p, l, b) ==> NamedBlock(g, t.sharing, p, u, kept, l, b) != bk
    ensures kept && bk in u.blk && StateOf(v, bk) == StateOf(u, bk)
  {
    var slots := PacketSlots(g.mix, p, p.active);
    OpenUndisturbed(Kept(u, kept), v, slots);
    if bk in NamedBy(v.dir, slots) {
      var dk :| dk in slots && dk in v.dir && v.dir[dk] == bk;
      PacketSlotIsCell(g.mix, p, p.active, dk);
      var l: nat, b: nat :| IsCell(p, l, b) && SlotKey(g.mix, p, l, b) == dk;
      CellNamesItsBlock(g, p, t, u, kept, v, l, b);
      assert false;
    }
  }

  /** Two cells record the same physical slot exactly when they name the same block. */
  lemma CellsShareASlotIffTheyShareABlock(g: Geometry, p: Packet, t: Table, u: View, kept: bool, v: View,
                                          lane: nat, block: nat, lane': nat, block': nat)
    requires BuiltFrom(g, p, t, u, kept, v) && IsCell(p, lane, block) && IsCell(p, lane', block')
    ensures Cell(g.laneStride, lane, block) < |t.cells| && Cell(g.laneStride, lane', block') < |t.cells|
    ensures t.cells[Cell(g.laneStride, lane, block)] == t.cells[Cell(g.laneStride, lane', block')] <==>
            NamedBlock(g, t.sharing, p, u, kept, lane, block) == NamedBlock(g, t.sharing, p, u, kept, lane', block')
  {
    CellNamesItsBlock(g, p, t, u, kept, v, lane, block);
    CellNamesItsBlock(g, p, t, u, kept, v, lane', block');
    BoundSlot(v, SlotKey(g.mix, p, lane, block));
    BoundSlot(v, SlotKey(g.mix, p, lane', block'));
  }

  /**
   * Two shared cells that no pin holds record the same physical slot exactly when the keys published for them name
   * one content.
   */
  lemma SharedCellsAgreeIff(g: Geometry, p: Packet, t: Table, u: View, kept: bool, v: View,
                            lane: nat, block: nat, lane': nat, block': nat)
    requires BuiltFrom(g, p, t, u, kept, v) && IsCell(p, lane, block) && IsCell(p, lane', block')
    requires var key := WantedKey(g.mix, t.sharing, p, lane, block);
      IsContent(key) && !IsHeld(u, kept, SlotKey(g.mix, p, lane, block), key)
    requires var key' := WantedKey(g.mix, t.sharing, p, lane', block');
      IsContent(key') && !IsHeld(u, kept, SlotKey(g.mix, p, lane', block'), key')
    ensures Cell(g.laneStride, lane, block) < |t.cells| && Cell(g.laneStride, lane', block') < |t.cells|
    ensures PublishedKey(t.sharing, lane, block).Some? && PublishedKey(t.sharing, lane', block').Some?
    ensures t.cells[Cell(g.laneStride, lane, block)] == t.cells[Cell(g.laneStride, lane', block')] <==>
      SameContent(PublishedKey(t.sharing, lane, block).value, PublishedKey(t.sharing, lane', block').value)
  {
    CellsShareASlotIffTheyShareABlock(g, p, t, u, kept, v, lane, block, lane', block');
    ContentsAgreeIff(g.mix, t.sharing, p, lane, block, lane', block');
  }

  /**
   * The block of a speculative or draft position is the slot's own, shared with no other slot, exactly unless a
   * pin held another block in its slot when the build started.
   */
  lemma DraftIsPrivateUnlessPinned(g: Geometry, p: Packet, t: Table, u: View, kept: bool, v: View, lane: nat, q: nat)
    requires BuiltFrom(g, p, t, u, kept, v) && lane < p.active && p.blockTokens > 0 && IsDraft(p.lanes[lane], q)
    ensures var dk := SlotKey(g.mix, p, lane, BlockOf(q, p.blockTokens));
      && dk in v.dir && (v.dir[dk] == dk <==> !IsHeld(u, kept, dk, dk))
      && (v.dir[dk] == dk ==>
            dk in v.blk && v.blk[dk].refs == 1 && forall k :: k in v.dir && v.dir[k] == dk ==> k == dk)
  {
    var block := BlockOf(q, p.blockTokens);
    DraftBlockStaysPrivate(g.mix, t.sharing, p, lane, q);
    CellNamesItsBlock(g, p, t, u, kept, v, lane, block);
    OpenCoherent(v);
    if v.dir[SlotKey(g.mix, p, lane, block)] == SlotKey(g.mix, p, lane, block) {
      PrivateBlockIsUnshared(v.dir, v.blk, SlotKey(g.mix, p, lane, block));
    }
  }

  /** So the slot of a draft position is recorded by no other cell of the packet. */
  lemma DraftSlotIsItsOwn(g: Geometry, p: Packet, t: Table, u: View, kept: bool, v: View,
                          lane: nat, q: nat, lane': nat, block': nat)
    requires BuiltFrom(g, p, t, u, kept, v) && lane < p.active && p.blockTokens > 0 && IsDraft(p.lanes[lane], q)
    requires var dk := SlotKey(g.mix, p, lane, BlockOf(q, p.blockTokens)); !IsHeld(u, kept, dk, dk)
    requires IsCell(p, lane', block') && (lane', block') != (lane, BlockOf(q, p.blockTokens))
    ensures Cell(g.laneStride, lane, BlockOf(q, p.blockTokens)) < |t.cells|
    ensures Cell(g.laneStride, lane', block') < |t.cells|
    ensures t.cells[Cell(g.laneStride, lane, BlockOf(q, p.blockTokens))] != t.cells[Cell(g.laneStride, lane', block')]
  {
    DraftBlockStaysPrivate(g.mix, t.sharing, p, lane, q);
    DraftIsPrivateUnlessPinned(g, p, t, u, kept, v, lane, q);
    CellNamesItsBlock(g, p, t, u, kept, v, lane, BlockOf(q, p.blockTokens));
    CellNamesItsBlock(g, p, t, u, kept, v, lane', block');
    CellsShareASlotIffTheyShareABlock(g, p, t, u, kept, v, lane, BlockOf(q, p.blockTokens), lane', block');
  }
}
