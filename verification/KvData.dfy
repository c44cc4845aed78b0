/**
 * The data behind the directory: whatever is spilled and faulted back in, a slot
 * finds the data it had, and a commit makes what the device wrote the data of its
 * blocks. A backing copy is used only while it is a true one.
 */
module KvData {
  import opened KvIndex
  import opened KvView
  import opened KvSealed
  import opened KvReadiness
  import opened KvLanes
  import opened KvPasses
  import opened KvDirectory

  // ---- One step ------------------------------------------------------------

  /** The device computes: it changes only the physical slots of the blocks that `slots` name. */
  ghost predicate Computes(v: View, w: View, slots: set<KvKey>) {
    w == v.(gpu := w.gpu) && forall q: nat :: q !in Homes(v, slots) ==> At(w.gpu, q) == At(v.gpu, q)
  }

  /** A block the device did not write has its data, and its backing copy is as good as it was. */
  lemma ComputedElsewhere(v: View, w: View, slots: set<KvKey>, bk: KvKey)
    requires Coherent(v) && Computes(v, w, slots) && bk in v.blk && bk !in NamedBy(v.dir, slots)
    ensures LivesOn(v, bk, w, bk)
  {
    OpenCoherent(v);
    assert BlockStored(v, bk);
    if v.blk[bk].onGpu {
      forall dk | dk in slots && dk in v.dir && v.dir[dk] in v.blk && v.blk[v.dir[dk]].onGpu
        ensures v.blk[v.dir[dk]].physical != v.blk[bk].physical
      {
        assert BlockStored(v, v.dir[dk]);
      }
    }
  }

  /** A commit moves no data. Afterwards a written block counts as having no backing copy. */
  lemma CommitKeepsData(v: View, w: View, marked: set<KvKey>, written: set<KvKey>, bk: KvKey)
    requires Commits(v, w, marked, written) && bk in v.blk
    ensures bk in w.blk && DataOf(w, bk) == DataOf(v, bk) && w.dir == v.dir && w.blk.Keys == v.blk.Keys
    ensures IsClean(w, bk) <==> IsClean(v, bk) || bk in NamedBy(v.dir, written)
  {
    var m: View :| Marks(v, m, marked) && GoesStale(m, w, written);
    assert w.blk[bk] == v.blk[bk].(backingValid := v.blk[bk].backingValid && bk !in NamedBy(v.dir, written));
  }

  /** A cancel or a release leaves every slot that stays bound its data. */
  lemma UnbindingKeepsData(v: View, w: View, slots: set<KvKey>)
    requires Coherent(w) && Unbinds(v, w, slots)
    ensures Undisturbed(v, w, slots)
  {
    OpenUndisturbed(v, w, slots);
    forall bk | bk in w.blk ensures bk in v.blk && StateOf(w, bk) == StateOf(v, bk) && LivesOn(v, bk, w, bk) {
      assert BlockStays(v, w, bk);
    }
    forall dk ensures KeepsData(v, w, dk) {
      if dk in w.dir {
        BoundSlot(w, dk);
      }
    }
  }

  lemma SweepingKeepsData(v: View, w: View)
    requires Coherent(v) && Sweeps(v, w)
    ensures Undisturbed(v, w, {}) && Coherent(w)
  {
    SweptIsAsReady(v, w);
    SweepKeepsCoherent(v, w);
    OpenUndisturbed(v, w, {});
    forall dk ensures KeepsData(v, w, dk) {
      if dk in w.dir {
        BoundSlot(w, dk);
      }
    }
  }

  lemma LendingKeepsData(mix: Mixer, v: View, p: nat)
    requires Coherent(v) && Shaped(v) && IsFree(v, p) && v.pins.Some?
    ensures Undisturbed(v, Lent(mix, v, p), {})
  {
    var w := Lent(mix, v, p);
    OpenCoherent(v);
    OpenUndisturbed(v, w, {});
    forall bk | bk in w.blk ensures bk in v.blk && StateOf(w, bk) == StateOf(v, bk) && LivesOn(v, bk, w, bk) {
      assert BlockStored(v, bk);
    }
    forall dk ensures KeepsData(v, w, dk) {
      if dk in v.dir {
        BoundSlot(v, dk);
      }
    }
  }

  /** Lending a slot out, for which a block may have to be spilled, leaves every slot its data. */
  lemma BorrowingKeepsData(mix: Mixer, v: View, w: View, p: nat)
    requires Coherent(v) && Borrows(mix, v, w, p)
    ensures Undisturbed(v, w, {})
  {
    var u: View :| Sweeps(v, u) && Shaped(u) && IsFree(u, p) && u.pins.Some? && w == Lent(mix, u, p);
    SweepingKeepsData(v, u);
    LendingKeepsData(mix, u, p);
    UndisturbedChain(v, u, w, {}, {});
    UndisturbedGrows(v, w, {} + {}, {});
  }

  // ---- One turn ------------------------------------------------------------

  /** A written block is clean after the commit, with the data the device left in its physical slot. */
  ghost predicate WroteData(v: View, w: View, bk: KvKey) {
    && bk in v.blk && bk in w.blk && IsClean(w, bk)
    && (v.blk[bk].onGpu ==> DataOf(w, bk) == At(v.gpu, v.blk[bk].physical))
  }

  /** A slot that stays bound to its block, when no slot of `written` names that, finds the data it had. */
  ghost predicate UnwrittenStays(v: View, w: View, written: set<KvKey>, dk: KvKey) {
    dk in v.dir && dk in w.dir && w.dir[dk] == v.dir[dk] && w.dir[dk] !in NamedBy(w.dir, written) ==>
      LivesOn(v, v.dir[dk], w, v.dir[dk])
  }

  /**
   * A turn: a build leaves `v`, the device writes the blocks of `written`, and the commit of these leaves `w`. Then
   * every valid backing copy is a true one if all were before, a written block has what the device wrote, and a slot
   * that stays bound to a block that was not written finds the data it had.
   */
  lemma TurnKeepsData(u: View, v: View, m: View, w: View, slots: set<KvKey>, marked: set<KvKey>, written: set<KvKey>)
    requires Coherent(v) && Undisturbed(u, v, slots) && Computes(v, m, written) && Commits(m, w, marked, written)
    ensures AllClean(u) ==> AllClean(w)
    ensures forall dk :: dk in written && dk in v.dir ==> WroteData(m, w, v.dir[dk])
    ensures forall dk :: UnwrittenStays(u, w, written, dk)
  {
    OpenUndisturbed(u, v, slots);
    var m': View :| Marks(m, m', marked) && GoesStale(m', w, written);
    forall bk | bk in v.blk ensures bk in w.blk && (bk !in NamedBy(v.dir, written) ==> LivesOn(v, bk, w, bk)) {
      CommitKeepsData(m, w, marked, written, bk);
      if bk !in NamedBy(v.dir, written) {
        ComputedElsewhere(v, m, written, bk);
      }
    }
    forall dk | dk in written && dk in v.dir ensures WroteData(m, w, v.dir[dk]) {
      BoundSlot(v, dk);
      CommitKeepsData(m, w, marked, written, v.dir[dk]);
      assert v.dir[dk] in NamedBy(v.dir, written);
    }
    if AllClean(u) {
      forall bk | bk in w.blk ensures IsClean(w, bk) {
        CommitKeepsData(m, w, marked, written, bk);
        assert IsClean(v, bk);
      }
    }
    forall dk ensures UnwrittenStays(u, w, written, dk) {
      assert KeepsData(u, v, dk);
      if dk in v.dir {
        BoundSlot(v, dk);
      }
    }
  }

  /**
   * The second half of a turn: the device writes blocks of the packet's written positions through their physical
   * slots, and the packet is committed. `u` is the state the build started from.
   */
  method FinishTurn(kv: KvState, p: Packet, data: Tier, ghost u: View, ghost slots: set<KvKey>)
    returns (r: Outcome<()>)
    requires kv.Valid() && PacketOk(p) && p.writtenPositions > 0 && Undisturbed(u, kv.State(), slots)
    requires data.Keys <= Homes(kv.State(), WrittenSlots(kv.g.mix, p, p.active))
    modifies kv
    ensures kv.Valid()
    ensures r.Ok? ==> AllClean(u) ==> AllClean(kv.State())
    ensures r.Ok? ==> forall dk :: UnwrittenStays(u, kv.State(), WrittenSlots(kv.g.mix, p, p.active), dk)
    ensures r.Ok? ==> forall dk ::
      dk in WrittenSlots(kv.g.mix, p, p.active) && dk in old(kv.State()).dir ==>
        WroteData(old(kv.State()).(gpu := old(kv.State()).gpu + data), kv.State(), old(kv.State()).dir[dk])
  {
    ghost var v := kv.State();
    kv.Compute(data);
    ghost var m := kv.State();
    assert Computes(v, m, WrittenSlots(kv.g.mix, p, p.active));
    ghost var marked, written := {}, {};
    r, marked, written := kv.CommitTable(p);
    if r.Ok? {
      TurnKeepsData(u, v, m, kv.State(), slots, marked, written);
    }
  }
}
