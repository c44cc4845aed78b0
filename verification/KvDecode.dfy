/**
 * When a decode is not refused as busy: every block it needs is bound and resident
 * before the build, and no cell's binding takes that away from another cell.
 */
module KvDecode {
  import opened KvIndex
  import opened KvView
  import opened KvSealed
  import opened KvReadiness
  import opened KvLanes

  /** The last block of a lane that asks for its own key: it may start missing. */
  ghost predicate MayStart(mix: Mixer, s: Sharing, p: Packet, lane: nat, block: nat)
    requires IsCell(p, lane, block)
  {
    block + 1 == LaneBlocks(p, lane) && WantedKey(mix, s, p, lane, block) == SlotKey(mix, p, lane, block)
  }

  /**
   * A slot is bound to a resident block: the one it asks for, its own, or one a pin holds. If the block it asks
   * for is there, it is resident too.
   */
  ghost predicate WarmSlot(v: View, dk: KvKey, key: KvKey) {
    && dk in v.dir && v.dir[dk] in v.blk && StateOf(v, v.dir[dk]) == Resident
    && (v.dir[dk] == key || v.dir[dk] == dk || IsPinned(v, v.dir[dk]))
    && (key in v.blk ==> StateOf(v, key) == Resident)
  }

  ghost predicate WarmCell(mix: Mixer, s: Sharing, p: Packet, v: View, lane: nat, block: nat)
    requires IsCell(p, lane, block)
  {
    MayStart(mix, s, p, lane, block) || WarmSlot(v, SlotKey(mix, p, lane, block), WantedKey(mix, s, p, lane, block))
  }

  ghost predicate AllWarm(mix: Mixer, s: Sharing, p: Packet, v: View) {
    SlotsDistinct(mix, p) && forall l: nat, b: nat :: IsCell(p, l, b) ==> WarmCell(mix, s, p, v, l, b)
  }

  ghost function WarmSeal(mix: Mixer, s: Sharing, p: Packet, v: View, depth: nat): nat {
    if depth > 0 then WarmSeal(mix, s, p, v, depth - 1) else if AllWarm(mix, s, p, v) then 1 else 0
  }

  /** Every cell of the packet is warm. Sealed behind a recursion the verifier does not unroll. */
  ghost predicate Warm(mix: Mixer, s: Sharing, p: Packet, v: View) {
    WarmSeal(mix, s, p, v, p.active + 2) == 1
  }

  lemma {:induction false} UnsealWarm(mix: Mixer, s: Sharing, p: Packet, v: View, depth: nat)
    ensures WarmSeal(mix, s, p, v, depth) == 1 <==> AllWarm(mix, s, p, v)
  {
    if depth > 0 {
      UnsealWarm(mix, s, p, v, depth - 1);
    }
  }

  lemma OpenWarm(mix: Mixer, s: Sharing, p: Packet, v: View)
    ensures Warm(mix, s, p, v) <==> AllWarm(mix, s, p, v)
  {
    UnsealWarm(mix, s, p, v, p.active + 2);
  }

  ghost predicate KeepsWarm(mix: Mixer, s: Sharing, p: Packet, v: View, w: View) {
    Warm(mix, s, p, v) ==> Warm(mix, s, p, w)
  }

  /** Warmth does not depend on the epoch, and without bindings on nothing but the packet. */
  lemma WarmSame(mix: Mixer, s: Sharing, p: Packet, v: View, w: View)
    requires w.dir == v.dir && (v.dir == map[] || w == v.(epoch := w.epoch))
    ensures Warm(mix, s, p, v) <==> Warm(mix, s, p, w)
  {
    OpenWarm(mix, s, p, v);
    OpenWarm(mix, s, p, w);
    forall l: nat, b: nat | IsCell(p, l, b) ensures WarmCell(mix, s, p, v, l, b) <==> WarmCell(mix, s, p, w, l, b) {
      var bk := WantedKey(mix, s, p, l, b);
      assert StateOf(v, bk) == StateOf(w, bk) || v.dir == map[];
    }
  }

  /** A warm slot finds its block resident. */
  lemma WarmIsFound(v: View, dk: KvKey, key: KvKey)
    requires Coherent(v) && WarmSlot(v, dk, key)
    ensures FoundState(v, dk, key) == Resident
  {
    BoundSlot(v, dk);
    if v.dir[dk] == dk {
      OpenCoherent(v);
      PrivateBlockIsUnshared(v.dir, v.blk, dk);
    }
  }

  /** A slot that is bound to a warm block stays warm while another slot is bound to a resident one, or to its own. */
  lemma OtherStaysWarm(v: View, w: View, dk: KvKey, key: KvKey, s: EntryState, k: KvKey, wanted: KvKey)
    requires Coherent(v) && Coherent(w) && WarmSlot(v, k, wanted) && k != dk && IsPrivate(dk) && MayName(k, wanted)
    requires Rebinds(v, w, dk, Target(v, dk, key)) && Readies(v, w, dk, key, s)
    requires s == Resident || (key == dk && (FoundState(v, dk, key) == Resident ==> s == Resident))
    ensures WarmSlot(w, k, wanted)
  {
    BoundSlot(v, k);
    BoundSlot(w, k);
    assert w.dir[k] == v.dir[k];
    var target := Target(v, dk, key);
    assert target == dk ==> v.dir[k] != dk && wanted != dk;
  }

  lemma CellStaysWarm(mix: Mixer, s: Sharing, p: Packet, v: View, w: View, lane: nat, block: nat, l: nat, b: nat)
    requires Coherent(v) && Coherent(w) && SlotsDistinct(mix, p) && IsCell(p, lane, block) && IsCell(p, l, b)
    requires WarmCell(mix, s, p, v, lane, block) && WarmCell(mix, s, p, v, l, b) && !MayStart(mix, s, p, l, b)
    requires CellReadies(mix, p, v, w, lane, block, WantedKey(mix, s, p, lane, block))
    requires var dk := SlotKey(mix, p, lane, block); Rebinds(v, w, dk, Target(v, dk, WantedKey(mix, s, p, lane, block)))
    ensures WarmCell(mix, s, p, w, l, b)
  {
    var dk, key := SlotKey(mix, p, lane, block), WantedKey(mix, s, p, lane, block);
    var state := Settling(p, lane, block, FoundState(v, dk, key)).value;
    if WarmSlot(v, dk, key) {
      WarmIsFound(v, dk, key);
    }
    if SlotKey(mix, p, l, b) == dk {
      BoundSlot(w, dk);
    } else {
      OtherStaysWarm(v, w, dk, key, state, SlotKey(mix, p, l, b), WantedKey(mix, s, p, l, b));
    }
  }

  /** A successful cell keeps the packet warm, and a warm packet has no busy cell. */
  lemma CellKeepsWarm(mix: Mixer, s: Sharing, p: Packet, v: View, w: View, lane: nat, block: nat)
    requires Coherent(v) && Coherent(w) && IsCell(p, lane, block)
    requires CellReadies(mix, p, v, w, lane, block, WantedKey(mix, s, p, lane, block))
    requires var dk := SlotKey(mix, p, lane, block); Rebinds(v, w, dk, Target(v, dk, WantedKey(mix, s, p, lane, block)))
    ensures KeepsWarm(mix, s, p, v, w)
  {
    OpenWarm(mix, s, p, v);
    OpenWarm(mix, s, p, w);
    if Warm(mix, s, p, v) {
      forall l: nat, b: nat | IsCell(p, l, b) ensures WarmCell(mix, s, p, w, l, b) {
        assert WarmCell(mix, s, p, v, lane, block) && WarmCell(mix, s, p, v, l, b);
        if !MayStart(mix, s, p, l, b) {
          CellStaysWarm(mix, s, p, v, w, lane, block, l, b);
        }
      }
    }
  }

  /** A cell of a warm packet is not refused. */
  lemma WarmIsNotBusy(mix: Mixer, s: Sharing, p: Packet, v: View, lane: nat, block: nat)
    requires Coherent(v) && IsCell(p, lane, block) && Warm(mix, s, p, v)
    ensures var found := FoundState(v, SlotKey(mix, p, lane, block), WantedKey(mix, s, p, lane, block));
      Settling(p, lane, block, found).Some?
  {
    OpenWarm(mix, s, p, v);
    assert WarmCell(mix, s, p, v, lane, block);
    if !MayStart(mix, s, p, lane, block) {
      WarmIsFound(v, SlotKey(mix, p, lane, block), WantedKey(mix, s, p, lane, block));
    }
  }
}
