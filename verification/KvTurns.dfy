/**
 * One turn after another: what a built and committed packet leaves is ready for the
 * next decode of its lanes, and a cancelled one leaves what was resident.
 */
module KvTurns {
  import opened Blocks
  import opened Results
  import opened KvIndex
  import opened KvView
  import opened KvSealed
  import opened KvReadiness
  import opened KvLanes
  import opened KvDecode
  import opened KvPasses
  import opened KvDirectory

  ghost predicate LaneContinues(s: Sharing, p: Packet, q: Packet, lane: nat)
    requires lane < |p.lanes| && lane < |q.lanes|
  {
    && q.lanes[lane].sequence == p.lanes[lane].sequence
    && CommittedFrontier(p.lanes[lane]) <= CommittedFrontier(q.lanes[lane])
    && (RowIsPublished(s, p, lane) ==> RowIsPublished(s, q, lane))
  }

  /**
   * Packet `q` goes on from `p`: each lane has the sequence it had, has not lost committed tokens, and needs no
   * block that `p` did not have but a last one of its own.
   */
  ghost predicate GoesOn(mix: Mixer, s: Sharing, p: Packet, q: Packet) {
    && q.active <= p.active <= |p.lanes| && q.active <= |q.lanes| && q.blockTokens == p.blockTokens
    && SlotsDistinct(mix, q)
    && (forall l: nat :: l < q.active ==> LaneContinues(s, p, q, l))
    && (forall l: nat, b: nat :: IsCell(q, l, b) ==> IsCell(p, l, b) || MayStart(mix, s, q, l, b))
  }

  /** The blocks a build of `p` gives its cells when it starts from `u`. */
  ghost function Grants(mix: Mixer, s: Sharing, p: Packet, u: View): set<KvKey>
    requires p.active <= |p.lanes|
  {
    NamedBy(PacketDirectory(mix, s, p, u.dir, PinnedBlocks(u), p.active), PacketSlots(mix, p, p.active))
  }

  /** Every block `q` asks for is given to `p`, or it is resident, or there is none. */
  ghost predicate NoneElsewhere(mix: Mixer, s: Sharing, p: Packet, q: Packet, u: View)
    requires p.active <= |p.lanes|
  {
    forall l: nat, b: nat :: IsCell(q, l, b) ==>
      var bk := WantedKey(mix, s, q, l, b); bk in Grants(mix, s, p, u) || bk !in u.blk || StateOf(u, bk) == Resident
  }

  lemma SharedAgain(mix: Mixer, s: Sharing, p: Packet, q: Packet, lane: nat, block: nat)
    requires IsCell(p, lane, block) && IsCell(q, lane, block) && LaneContinues(s, p, q, lane)
    requires q.blockTokens == p.blockTokens && IsContent(WantedKey(mix, s, p, lane, block))
    ensures IsContent(WantedKey(mix, s, q, lane, block))
  {
    SharedIffCommitted(mix, s, p, lane, block);
    SharedIffCommitted(mix, s, q, lane, block);
    assert EndToken(block + 1, p.blockTokens) > 0;
  }

  /** A cell that asked for a content key asks for it again. */
  lemma AsksAgain(mix: Mixer, s: Sharing, p: Packet, q: Packet, lane: nat, block: nat)
    requires GoesOn(mix, s, p, q) && IsCell(p, lane, block) && IsCell(q, lane, block)
    ensures SlotKey(mix, q, lane, block) == SlotKey(mix, p, lane, block)
    ensures WantedKey(mix, s, p, lane, block) == WantedKey(mix, s, q, lane, block)
            || WantedKey(mix, s, p, lane, block) == SlotKey(mix, q, lane, block)
  {
    assert LaneContinues(s, p, q, lane);
    if IsContent(WantedKey(mix, s, p, lane, block)) {
      SharedAgain(mix, s, p, q, lane, block);
      WantedIsPublished(mix, s, p, lane, block);
      WantedIsPublished(mix, s, q, lane, block);
    }
  }

  /** A commit leaves the blocks of its slots resident, and all others as ready as they were. */
  lemma CommitReadies(v: View, w: View, marked: set<KvKey>, written: set<KvKey>, bk: KvKey)
    requires Coherent(v) && Commits(v, w, marked, written) && bk in v.blk
    ensures bk in w.blk && StateOf(w, bk) == if bk in NamedBy(v.dir, marked) then Resident else StateOf(v, bk)
    ensures w.dir == v.dir && w.blk.Keys == v.blk.Keys && (IsPinned(v, bk) ==> IsPinned(w, bk))
  {
    var m: View :| Marks(v, m, marked) && GoesStale(m, w, written);
    MarkedIsResident(v, m, marked, bk);
  }

  /** After build and commit, a block that `q` asks for is resident if it is there. */
  lemma AskedIsResident(mix: Mixer, s: Sharing, p: Packet, q: Packet, u: View, kept: bool, v: View, w: View,
                        written: set<KvKey>, l: nat, b: nat)
    requires Coherent(v) && p.active <= |p.lanes| && SlotsDistinct(mix, p) && Binds(mix, s, p, u, kept, v)
    requires Commits(v, w, PacketSlots(mix, p, p.active), written) && w.blk.Keys == v.blk.Keys
    requires NoneElsewhere(mix, s, p, q, Kept(u, kept)) && IsCell(q, l, b) && WantedKey(mix, s, q, l, b) in w.blk
    ensures StateOf(w, WantedKey(mix, s, q, l, b)) == Resident
  {
    var bk, slots := WantedKey(mix, s, q, l, b), PacketSlots(mix, p, p.active);
    CommitReadies(v, w, slots, written, bk);
    OpenUndisturbed(Kept(u, kept), v, slots);
    assert bk in Grants(mix, s, p, Kept(u, kept)) ==> bk in NamedBy(v.dir, slots);
  }

  /** A cell of both packets is warm for `q` once `p` is built and committed. */
  lemma CellIsWarm(g: Geometry, p: Packet, q: Packet, t: Table, u: View, kept: bool, v: View, w: View,
                   written: set<KvKey>, l: nat, b: nat)
    requires Coherent(v) && p.active <= |p.lanes| && SlotsDistinct(g.mix, p) && GoesOn(g.mix, t.sharing, p, q)
    requires Built(g, p, t, v, p.active) && Binds(g.mix, t.sharing, p, u, kept, v)
    requires Commits(v, w, PacketSlots(g.mix, p, p.active), written)
    requires NoneElsewhere(g.mix, t.sharing, p, q, Kept(u, kept)) && IsCell(p, l, b) && IsCell(q, l, b)
    ensures WarmCell(g.mix, t.sharing, q, w, l, b)
  {
    var dk, slots := SlotKey(g.mix, p, l, b), PacketSlots(g.mix, p, p.active);
    FilledMeans((g.mix, g.laneStride), t.sharing, p, t.cells, v, p.active, 0, l, b);
    AsksAgain(g.mix, t.sharing, p, q, l, b);
    PacketSlotIsCell(g.mix, p, p.active, dk);
    BoundSlot(v, dk);
    assert v.dir[dk] in NamedBy(v.dir, slots);
    CommitReadies(v, w, slots, written, v.dir[dk]);
    if WantedKey(g.mix, t.sharing, q, l, b) in w.blk {
      AskedIsResident(g.mix, t.sharing, p, q, u, kept, v, w, written, l, b);
    }
  }

  /**
   * What a built and committed packet leaves is warm for a decode that goes on from it, if the decode asks for no
   * block that another sequence has in flight when the build starts.
   */
  lemma CommittedIsWarm(g: Geometry, p: Packet, q: Packet, t: Table, u: View, kept: bool, v: View, w: View,
                        written: set<KvKey>)
    requires Coherent(v) && p.active <= |p.lanes| && SlotsDistinct(g.mix, p) && GoesOn(g.mix, t.sharing, p, q)
    requires Built(g, p, t, v, p.active) && Binds(g.mix, t.sharing, p, u, kept, v)
    requires Commits(v, w, PacketSlots(g.mix, p, p.active), written)
    requires NoneElsewhere(g.mix, t.sharing, p, q, Kept(u, kept))
    ensures Warm(g.mix, t.sharing, q, w)
  {
    OpenWarm(g.mix, t.sharing, q, w);
    forall l: nat, b: nat | IsCell(q, l, b) ensures WarmCell(g.mix, t.sharing, q, w, l, b) {
      if IsCell(p, l, b) {
        CellIsWarm(g, p, q, t, u, kept, v, w, written, l, b);
      }
    }
  }

  /** Build and commit a packet: the state is then warm for every decode that goes on from it. */
  method BuildAndCommit(kv: KvState, p: Packet, ghost q: Packet) returns (r: Outcome<()>)
    requires kv.Valid()
    modifies kv
    ensures kv.Valid() && kv.table.sharing == old(kv.table.sharing)
    ensures r.Ok? ==> kv.table.generation == p.generation && PacketOk(p)
    ensures r.Ok? && SlotsDistinct(kv.g.mix, p) && GoesOn(kv.g.mix, kv.table.sharing, p, q) ==>
      var u := Kept(old(kv.State()), p.generation == old(kv.table.generation));
      NoneElsewhere(kv.g.mix, kv.table.sharing, p, q, u) ==> Warm(kv.g.mix, kv.table.sharing, q, kv.State())
  {
    ghost var u, kept := kv.State(), p.generation == kv.table.generation;
    r := kv.BuildTable(p);
    if r.Err? {
      return;
    }
    ghost var v, t := kv.State(), kv.table;
    ghost var marked, written := {}, {};
    r, marked, written := kv.CommitTable(p);
    if r.Ok? && SlotsDistinct(kv.g.mix, p) && GoesOn(kv.g.mix, t.sharing, p, q)
      && NoneElsewhere(kv.g.mix, t.sharing, p, q, Kept(u, kept))
    {
      CommittedIsWarm(kv.g, p, q, t, u, kept, v, kv.State(), written);
    }
  }

  /** Build and commit a packet, then build a decode that goes on from it: the decode is not busy. */
  method PrefillThenDecode(kv: KvState, p: Packet, q: Packet) returns (committed: Outcome<()>, decoded: Outcome<()>)
    requires kv.Valid() && q.generation == p.generation
    modifies kv
    ensures kv.Valid() && kv.table.sharing == old(kv.table.sharing)
    ensures committed.Ok? && SlotsDistinct(kv.g.mix, p) && GoesOn(kv.g.mix, kv.table.sharing, p, q) ==>
      var u := Kept(old(kv.State()), p.generation == old(kv.table.generation));
      NoneElsewhere(kv.g.mix, kv.table.sharing, p, q, u) ==> decoded != Err(Busy)
  {
    committed := BuildAndCommit(kv, p, q);
    decoded := kv.BuildTable(q);
  }

  /**
   * A cancel unbinds a slot exactly when it is one of the packet's and names a block in flight. Any other slot
   * stays bound to the same block, which keeps its place and its readiness.
   */
  lemma CancelKeepsTheRest(v: View, w: View, seen: set<KvKey>, dk: KvKey)
    requires Coherent(w) && Unbinds(v, w, Cancelled(v, seen)) && dk in v.dir
    ensures dk in w.dir <==> !(dk in seen && InFlightBlock(v, v.dir[dk]))
    ensures dk in w.dir ==>
      && w.dir[dk] == v.dir[dk] && v.dir[dk] in w.blk && v.dir[dk] in v.blk
      && w.blk[v.dir[dk]] == v.blk[v.dir[dk]].(refs := w.blk[v.dir[dk]].refs)
      && StateOf(w, v.dir[dk]) == StateOf(v, v.dir[dk])
  {
    if dk in w.dir {
      BoundSlot(w, dk);
      assert BlockStays(v, w, w.dir[dk]);
    }
  }
}
