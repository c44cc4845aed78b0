/**
 * The key/value directory as values: which sequence slot names which block,
 * where each block lives, and what must agree. `KvState` refines these steps.
 */
module KvView {
  import opened Results
  import opened Sequences
  import opened KvIndex

  /** "No block": `u32::MAX`. */
  const NO_BLOCK := 0xFFFF_FFFF
  const EMPTY_KEY := KvKey(0, 0)

  /** Residency of one physical slot. */
  datatype EntryState = Missing | InFlight | Resident | Transient

  /** One block: sole owner of residency, backing storage and the share count. */
  datatype Block = Block(physical: nat, backing: nat, refs: nat, onGpu: bool, backingValid: bool, prefetchMark: nat)

  /** What the slots of one storage tier hold: a token for the data in each slot that was ever written. */
  type Tier = map<nat, nat>

  function At(t: Tier, slot: nat): nat {
    if slot in t then t[slot] else 0
  }

  /** The directory's abstract state, with the data in GPU memory and in the backing store. */
  datatype View = View(
    dir: map<KvKey, KvKey>,
    blk: map<KvKey, Block>,
    keys: seq<KvKey>,
    states: seq<EntryState>,
    lastUsed: seq<nat>,
    pins: Option<seq<nat>>,
    epoch: nat,
    backingCapacity: nat,
    freeList: seq<nat>,
    gpu: Tier,
    disk: Tier)

  // ---- Keys ----------------------------------------------------------------

  predicate IsOdd(n: nat) {
    n == 1 || (n > 1 && IsOdd(n - 2))
  }

  lemma {:induction false} SuccessorIsOdd(n: nat)
    ensures IsOdd(n) != IsOdd(n + 1)
  {
    if n > 1 {
      SuccessorIsOdd(n - 2);
    }
  }

  lemma {:induction false} OddIsRemainder(n: nat)
    ensures IsOdd(n) <==> n % 2 == 1
  {
    if n > 1 {
      OddIsRemainder(n - 2);
    }
  }

  /** `n | 1` */
  function WithBit0(n: nat): (r: nat)
    ensures IsOdd(r)
  {
    SuccessorIsOdd(n);
    if IsOdd(n) then n else n + 1
  }

  /** `n | 2` */
  function WithBit1(n: nat): (r: nat)
    ensures r >= 2 && IsOdd(r) == IsOdd(n)
  {
    if n >= 4 then WithBit1(n - 4) + 4 else if n < 2 then n + 2 else n
  }

  /** `n & !1` */
  function WithoutBit0(n: nat): (r: nat)
    ensures !IsOdd(r) && n <= r + 1
  {
    if IsOdd(n) then SuccessorIsOdd(n - 1); n - 1 else n
  }

  lemma {:induction false} Bit1At(q: nat, r: nat)
    requires r < 4
    ensures WithBit1(4 * q + r) == 4 * q + if r < 2 then r + 2 else r
  {
    if q > 0 {
      Bit1At(q - 1, r);
      assert 4 * q + r - 4 == 4 * (q - 1) + r;
    }
  }

  lemma Bit1IsSet(n: nat)
    ensures WithBit1(n) / 4 == n / 4 && WithBit1(n) % 4 == n % 2 + 2
  {
    Bit1At(n / 4, n % 4);
  }

  /** The two mixed words a private key is made from, before tagging; any mixing function will do. */
  type Mixer = (nat, nat) -> (nat, nat)

  predicate IsPrivate(k: KvKey) { k.high > 0 && IsOdd(k.high) }

  /** Private keys carry an odd high word. */
  function PrivateKey(mix: Mixer, sequenceId: nat, block: nat): (k: KvKey)
    ensures IsPrivate(k)
  {
    var (low, high) := mix(sequenceId, block);
    KvKey(low, WithBit0(high))
  }

  predicate IsContent(k: KvKey) { k.high > 0 && !IsOdd(k.high) }

  /** Content keys carry a high word with bit 0 cleared and bit 1 set. */
  function ContentKey(low: nat, high: nat): (k: KvKey)
    ensures IsContent(k)
  {
    KvKey(low, WithoutBit0(WithBit1(high)))
  }

  /** Bits 0 and 1 of a content key are `0` and `1`; every other bit is the digest's. */
  lemma ContentKeepsDigest(low: nat, high: nat)
    ensures var k := ContentKey(low, high); k.low == low && k.high / 4 == high / 4 && k.high % 4 == 2
  {
    Bit1IsSet(high);
    OddIsRemainder(WithBit1(high));
  }

  /** Two private keys are one exactly when the mixed words agree in all bits but bit 0 of the high word. */
  lemma PrivateKeysAgreeIff(mix: Mixer, sequence: nat, block: nat, sequence': nat, block': nat)
    ensures PrivateKey(mix, sequence, block) == PrivateKey(mix, sequence', block') <==>
      && mix(sequence, block).0 == mix(sequence', block').0
      && mix(sequence, block).1 / 2 == mix(sequence', block').1 / 2
  {
    OddIsRemainder(mix(sequence, block).1);
    OddIsRemainder(mix(sequence', block').1);
  }

  /** A key a directory slot may name: its own private key or a content key. */
  predicate MayName(dk: KvKey, bk: KvKey) { bk == dk || IsContent(bk) }

  // ---- Who names what ------------------------------------------------------

  ghost function Namers(dir: map<KvKey, KvKey>, bk: KvKey): set<KvKey> {
    set dk | dk in dir && dir[dk] == bk
  }

  /** The number of directory slots that name `bk`. */
  ghost function NameCount(dir: map<KvKey, KvKey>, bk: KvKey): nat {
    |Namers(dir, bk)|
  }

  lemma CountAfterInsert(dir: map<KvKey, KvKey>, dk: KvKey, bk: KvKey, k: KvKey)
    requires dk !in dir
    ensures NameCount(dir[dk := bk], k) == NameCount(dir, k) + if k == bk then 1 else 0
  {
    assert Namers(dir[dk := bk], k) == Namers(dir, k) + if k == bk then {dk} else {};
  }

  lemma CountAfterRemove(dir: map<KvKey, KvKey>, dk: KvKey, k: KvKey)
    requires dk in dir
    ensures NameCount(dir - {dk}, k) == NameCount(dir, k) - if k == dir[dk] then 1 else 0
  {
    assert Namers(dir, k) == Namers(dir - {dk}, k) + if k == dir[dk] then {dk} else {};
  }

  lemma CountAfterMove(dir: map<KvKey, KvKey>, dk: KvKey, bk: KvKey, k: KvKey)
    requires dk in dir
    ensures NameCount(dir[dk := bk], k)
            == NameCount(dir, k) - (if k == dir[dk] then 1 else 0) + if k == bk then 1 else 0
  {
    var rest := dir - {dk};
    CountAfterRemove(dir, dk, k);
    CountAfterInsert(rest, dk, bk, k);
    assert rest[dk := bk] == dir[dk := bk];
  }

  /** A slot's block is named at least once, and twice if another slot names it too. */
  lemma NamedIsCounted(dir: map<KvKey, KvKey>, dk: KvKey)
    requires dk in dir
    ensures NameCount(dir, dir[dk]) >= 1
    ensures forall k :: k in dir && k != dk && dir[k] == dir[dk] ==> NameCount(dir, dir[dk]) >= 2
  {
    assert dk in Namers(dir, dir[dk]);
    forall k | k in dir && k != dk && dir[k] == dir[dk] ensures NameCount(dir, dir[dk]) >= 2 {
      SubsetIsSmaller({k, dk}, Namers(dir, dir[dk]));
    }
  }

  lemma UnnamedIsNotCounted(dir: map<KvKey, KvKey>, bk: KvKey)
    requires forall dk :: dk in dir ==> dir[dk] != bk
    ensures NameCount(dir, bk) == 0
  {
    assert Namers(dir, bk) == {};
  }

  /** Every slot names a stored block that it may name. */
  ghost predicate SlotsNameBlocks(dir: map<KvKey, KvKey>, blk: map<KvKey, Block>) {
    forall dk :: dk in dir ==> IsPrivate(dk) && dir[dk] in blk && MayName(dk, dir[dk])
  }

  /** Each block's count is the number of slots that name it, and is not zero. */
  ghost predicate CountsExact(dir: map<KvKey, KvKey>, blk: map<KvKey, Block>) {
    forall bk :: bk in blk ==> blk[bk].refs == NameCount(dir, bk) > 0
  }

  ghost predicate Naming(dir: map<KvKey, KvKey>, blk: map<KvKey, Block>) {
    SlotsNameBlocks(dir, blk) && CountsExact(dir, blk)
  }

  /** A private block has exactly one reference, from the slot with the same key. */
  lemma PrivateBlockIsUnshared(dir: map<KvKey, KvKey>, blk: map<KvKey, Block>, bk: KvKey)
    requires Naming(dir, blk) && bk in blk && IsPrivate(bk)
    ensures blk[bk].refs == 1 && bk in dir && dir[bk] == bk
    ensures forall dk :: dk in dir && dir[dk] == bk ==> dk == bk
  {
    var namers := Namers(dir, bk);
    assert blk[bk].refs == NameCount(dir, bk) > 0;
    forall dk | dk in namers ensures dk == bk {
      assert MayName(dk, dir[dk]);
    }
    var dk :| dk in namers;
    assert namers == {bk};
  }

  /** `after` is `before` with one more reference on `bk`, a new block if it was absent. */
  ghost predicate RefAdded(before: map<KvKey, Block>, after: map<KvKey, Block>, bk: KvKey) {
    && after.Keys == before.Keys + {bk}
    && after[bk].refs == (if bk in before then before[bk].refs + 1 else 1)
    && forall k :: k in before && k != bk ==> after[k].refs == before[k].refs
  }

  /** `after` is `before` with one reference fewer on `bk`, gone if it was the last. */
  ghost predicate RefDropped(before: map<KvKey, Block>, after: map<KvKey, Block>, bk: KvKey) {
    && bk in before && before[bk].refs > 0
    && after.Keys == (if before[bk].refs == 1 then before.Keys - {bk} else before.Keys)
    && (bk in after ==> after[bk].refs == before[bk].refs - 1)
    && forall k :: k in after && k != bk ==> after[k].refs == before[k].refs
  }

  ghost predicate SameRefs(before: map<KvKey, Block>, after: map<KvKey, Block>) {
    after.Keys == before.Keys && forall k :: k in before ==> after[k].refs == before[k].refs
  }

  lemma NamingKeepsRefs(dir: map<KvKey, KvKey>, before: map<KvKey, Block>, after: map<KvKey, Block>)
    requires Naming(dir, before) && SameRefs(before, after)
    ensures Naming(dir, after)
  {
  }

  lemma NamingInsert(dir: map<KvKey, KvKey>, before: map<KvKey, Block>, after: map<KvKey, Block>, dk: KvKey, bk: KvKey)
    requires Naming(dir, before) && RefAdded(before, after, bk)
    requires dk !in dir && IsPrivate(dk) && MayName(dk, bk)
    ensures Naming(dir[dk := bk], after)
  {
    var dir' := dir[dk := bk];
    if bk !in before {
      UnnamedIsNotCounted(dir, bk);
    }
    forall k | k in after ensures after[k].refs == NameCount(dir', k) > 0 {
      CountAfterInsert(dir, dk, bk, k);
    }
  }

  lemma NamingRemove(dir: map<KvKey, KvKey>, before: map<KvKey, Block>, after: map<KvKey, Block>, dk: KvKey)
    requires Naming(dir, before) && dk in dir && RefDropped(before, after, dir[dk])
    ensures Naming(dir - {dk}, after)
  {
    var dir' := dir - {dk};
    NamedIsCounted(dir, dk);
    forall k | k in after ensures after[k].refs == NameCount(dir', k) > 0 {
      CountAfterRemove(dir, dk, k);
    }
  }

  lemma MovedSlotIsNamed(dir: map<KvKey, KvKey>, before: map<KvKey, Block>, middle: map<KvKey, Block>, after: map<KvKey,
                         Block>, dk: KvKey, bk: KvKey, k: KvKey)
    requires Naming(dir, before) && dk in dir && MayName(dk, bk) && bk != dir[dk] && k in dir[dk := bk]
    requires RefAdded(before, middle, bk) && RefDropped(middle, after, dir[dk])
    ensures IsPrivate(k) && dir[dk := bk][k] in after && MayName(k, dir[dk := bk][k])
  {
    NamedIsCounted(dir, dk);
    assert before[dir[dk]].refs == NameCount(dir, dir[dk]);
  }

  lemma MovedCountIsExact(dir: map<KvKey, KvKey>, before: map<KvKey, Block>, middle: map<KvKey, Block>,
                          after: map<KvKey, Block>, dk: KvKey, bk: KvKey, k: KvKey)
    requires Naming(dir, before) && dk in dir && bk != dir[dk] && k in after
    requires RefAdded(before, middle, bk) && RefDropped(middle, after, dir[dk])
    ensures after[k].refs == NameCount(dir[dk := bk], k) > 0
  {
    if bk !in before {
      UnnamedIsNotCounted(dir, bk);
    }
    CountAfterMove(dir, dk, bk, k);
  }

  /** Moving a slot's reference from the block it names to another. */
  lemma NamingMove(dir: map<KvKey, KvKey>, before: map<KvKey, Block>, middle: map<KvKey, Block>, after: map<KvKey,
                   Block>, dk: KvKey, bk: KvKey)
    requires Naming(dir, before) && dk in dir && MayName(dk, bk) && bk != dir[dk]
    requires RefAdded(before, middle, bk) && RefDropped(middle, after, dir[dk])
    ensures Naming(dir[dk := bk], after)
  {
    var dir' := dir[dk := bk];
    forall k | k in dir' ensures IsPrivate(k) && dir'[k] in after && MayName(k, dir'[k]) {
      MovedSlotIsNamed(dir, before, middle, after, dk, bk, k);
    }
    forall k | k in after ensures after[k].refs == NameCount(dir', k) > 0 {
      MovedCountIsExact(dir, before, middle, after, dk, bk, k);
    }
  }

  /** Publishing an unshared block under another key. */
  lemma NamingRekey(dir: map<KvKey, KvKey>, blk: map<KvKey, Block>, dk: KvKey, bk: KvKey)
    requires Naming(dir, blk) && dk in dir && MayName(dk, bk) && bk !in blk && blk[dir[dk]].refs == 1
    ensures Naming(dir[dk := bk], (blk - {dir[dk]})[bk := blk[dir[dk]]])
  {
    var dir', from := dir[dk := bk], dir[dk];
    var blk' := (blk - {from})[bk := blk[from]];
    NamedIsCounted(dir, dk);
    UnnamedIsNotCounted(dir, bk);
    forall k | k in blk' ensures blk'[k].refs == NameCount(dir', k) > 0 {
      CountAfterMove(dir, dk, bk, k);
    }
  }

  // ---- Where blocks live ---------------------------------------------------

  ghost predicate Shaped(v: View) {
    && 0 < |v.keys| == |v.states| == |v.lastUsed| < NO_BLOCK
    && (v.pins.Some? ==> |v.pins.value| == |v.keys|)
  }

  function PinCount(v: View, p: nat): nat
    requires v.pins.Some? ==> p < |v.pins.value|
  {
    if v.pins.Some? then v.pins.value[p] else 0
  }

  /** A block on the GPU owns the physical slot with its key; any other has a valid backing copy. */
  ghost predicate BlockStored(v: View, bk: KvKey) {
    && Shaped(v) && bk in v.blk && !bk.IsEmpty()
    && var b := v.blk[bk];
       if b.onGpu then b.physical < |v.keys| && v.keys[b.physical] == bk && v.states[b.physical] != Transient
       else b.physical == NO_BLOCK && b.backingValid && v.backingCapacity > 0
  }

  /** An occupied slot that is not transient holds the block with its key; a free slot is unpinned. */
  ghost predicate SlotStored(v: View, p: nat)
    requires Shaped(v) && p < |v.keys|
  {
    if v.keys[p].IsEmpty() then v.states[p] == Missing && PinCount(v, p) == 0
    else v.states[p] != Transient ==> v.keys[p] in v.blk && v.blk[v.keys[p]].onGpu && v.blk[v.keys[p]].physical == p
  }

  ghost predicate Placement(v: View) {
    && Shaped(v)
    && (forall bk {:trigger BlockStored(v, bk)} :: bk in v.blk ==> BlockStored(v, bk))
    && (forall p :: 0 <= p < |v.keys| ==> SlotStored(v, p))
  }

  /** Some block owns backing slot `x`. */
  ghost predicate BackingUsed(blk: map<KvKey, Block>, x: nat) {
    exists bk :: bk in blk && blk[bk].backing == x
  }

  /** Each block owns one distinct backing slot and the free list is exactly the rest. */
  ghost predicate Backing(blk: map<KvKey, Block>, capacity: nat, free: seq<nat>) {
    && (forall bk :: bk in blk ==> if capacity == 0 then blk[bk].backing == NO_BLOCK else blk[bk].backing < capacity)
    && (capacity > 0 ==> forall a, b :: a in blk && b in blk && blk[a].backing == blk[b].backing ==> a == b)
    && NoRepeats(free)
    && (forall x: nat :: x in free <==> x < capacity && !BackingUsed(blk, x))
  }

  ghost predicate Storage(v: View) {
    Placement(v) && Backing(v.blk, v.backingCapacity, v.freeList)
  }

  ghost predicate Consistent(v: View) {
    Storage(v) && Naming(v.dir, v.blk)
  }

  // ---- Sealed invariants ---------------------------------------------------

  // A sealed predicate is a number computed behind a recursion the verifier does
  // not unroll, so that proofs about tables handle the invariant as one fact.

  ghost function PlacementSeal(v: View, n: nat): nat {
    if n > 0 then PlacementSeal(v, n - 1) else if Placement(v) then 1 else 0
  }

  ghost function StorageSeal(v: View, n: nat): nat {
    if n > 0 then StorageSeal(v, n - 1) else if Storage(v) then 1 else 0
  }

  ghost function ConsistencySeal(v: View, n: nat): nat {
    if n > 0 then ConsistencySeal(v, n - 1) else if Consistent(v) then 1 else 0
  }

  /** Sealed `Placement`. */
  ghost predicate Sited(v: View) {
    PlacementSeal(v, v.epoch + 2) == 1
  }

  /** Sealed `Storage`. */
  ghost predicate Intact(v: View) {
    StorageSeal(v, v.epoch + 2) == 1
  }

  /** Sealed `Consistent`. */
  ghost predicate Coherent(v: View) {
    ConsistencySeal(v, v.epoch + 2) == 1
  }

  lemma {:induction false} UnsealPlacement(v: View, n: nat)
    ensures PlacementSeal(v, n) == 1 <==> Placement(v)
  {
    if n > 0 {
      UnsealPlacement(v, n - 1);
    }
  }

  lemma {:induction false} UnsealStorage(v: View, n: nat)
    ensures StorageSeal(v, n) == 1 <==> Storage(v)
  {
    if n > 0 {
      UnsealStorage(v, n - 1);
    }
  }

  lemma {:induction false} UnsealConsistency(v: View, n: nat)
    ensures ConsistencySeal(v, n) == 1 <==> Consistent(v)
  {
    if n > 0 {
      UnsealConsistency(v, n - 1);
    }
  }

  lemma OpenSited(v: View)
    ensures Sited(v) <==> Placement(v)
  {
    UnsealPlacement(v, v.epoch + 2);
  }

  lemma OpenIntact(v: View)
    ensures Intact(v) <==> Storage(v)
  {
    UnsealStorage(v, v.epoch + 2);
  }

  lemma OpenCoherent(v: View)
    ensures Coherent(v) <==> Consistent(v)
  {
    UnsealConsistency(v, v.epoch + 2);
  }

  // ---- Steps ---------------------------------------------------------------

  /** Free a physical slot. */
  function Cleared(v: View, p: nat): View
    requires p < |v.keys| == |v.states| == |v.lastUsed|
  {
    v.(keys := v.keys[p := EMPTY_KEY], states := v.states[p := Missing], lastUsed := v.lastUsed[p := 0])
  }

  /** Give a free physical slot to a key. */
  function Assigned(v: View, p: nat, key: KvKey, state: EntryState): View
    requires p < |v.keys| == |v.states| == |v.lastUsed|
  {
    v.(keys := v.keys[p := key], states := v.states[p := state], lastUsed := v.lastUsed[p := v.epoch])
  }

  /** Write a block out to its backing slot, unless a valid copy is there, and free its physical slot. */
  function Spilled(v: View, bk: KvKey): View
    requires bk in v.blk && v.blk[bk].physical < |v.keys| == |v.states| == |v.lastUsed|
  {
    var b := v.blk[bk];
    Cleared(v.(blk := v.blk[bk := b.(physical := NO_BLOCK, onGpu := false, backingValid := true)],
               disk := if b.backingValid then v.disk else v.disk[b.backing := At(v.gpu, b.physical)]), b.physical)
  }

  /** Admit a new block to a free physical slot and the backing slot `backing`. */
  function Admitted(v: View, bk: KvKey, p: nat, backing: nat): View
    requires p < |v.keys| == |v.states| == |v.lastUsed|
  {
    Assigned(v.(blk := v.blk[bk := Block(p, backing, 1, true, false, 0)]), p, bk, Missing)
  }

  /** Fault a spilled block back in to a free physical slot, with the data of its backing slot. */
  function Faulted(v: View, bk: KvKey, p: nat): View
    requires bk in v.blk && p < |v.keys| == |v.states| == |v.lastUsed|
  {
    Assigned(v.(blk := v.blk[bk := v.blk[bk].(physical := p, onGpu := true)],
                gpu := v.gpu[p := At(v.disk, v.blk[bk].backing)]), p, bk, Resident)
  }

  /** Drop a block and everything it owns. */
  function Freed(v: View, bk: KvKey): View
    requires bk in v.blk && (v.blk[bk].onGpu ==> v.blk[bk].physical < |v.keys| == |v.states| == |v.lastUsed|)
  {
    var b := v.blk[bk];
    var w := v.(blk := v.blk - {bk},
                freeList := if v.backingCapacity == 0 then v.freeList else [b.backing] + v.freeList);
    if b.onGpu then Cleared(w, b.physical) else w
  }

  /** Change a block's identity in place. */
  function Rekeyed(v: View, from: KvKey, bk: KvKey): View
    requires from in v.blk && (v.blk[from].onGpu ==> v.blk[from].physical < |v.keys|)
  {
    var b := v.blk[from];
    v.(blk := (v.blk - {from})[bk := b], keys := if b.onGpu then v.keys[b.physical := bk] else v.keys)
  }

  function WithRefs(v: View, bk: KvKey, refs: nat): View
    requires bk in v.blk
  {
    v.(blk := v.blk[bk := v.blk[bk].(refs := refs)])
  }

  /** A block the clock sweep may spill: unpinned, resident and not used this epoch. */
  ghost predicate Evictable(v: View, bk: KvKey) {
    && Shaped(v) && bk in v.blk && v.blk[bk].onGpu && v.blk[bk].physical < |v.keys|
    && v.states[v.blk[bk].physical] == Resident
    && v.lastUsed[v.blk[bk].physical] != v.epoch
    && PinCount(v, v.blk[bk].physical) == 0
    && v.backingCapacity > 0
  }

  /** The sweep spills at most one evictable block. */
  ghost predicate Sweeps(v: View, w: View) {
    w == v || exists bk :: Evictable(v, bk) && w == Spilled(v, bk)
  }

  ghost predicate IsFree(v: View, p: nat) {
    p < |v.keys| && v.keys[p].IsEmpty()
  }

  // ---- Every step keeps storage consistent ---------------------------------

  /** `after` has the same blocks as `before`, each with the same count and backing slot. */
  ghost predicate SameOwners(before: map<KvKey, Block>, after: map<KvKey, Block>) {
    && after.Keys == before.Keys
    && forall k :: k in before ==> after[k].refs == before[k].refs && after[k].backing == before[k].backing
  }

  lemma SpillKeepsPlacement(v: View, bk: KvKey)
    requires Placement(v) && Evictable(v, bk)
    ensures Placement(Spilled(v, bk)) && IsFree(Spilled(v, bk), v.blk[bk].physical)
    ensures SameOwners(v.blk, Spilled(v, bk).blk)
  {
    var w := Spilled(v, bk);
    assert BlockStored(v, bk);
    forall k | k in w.blk ensures BlockStored(w, k) {
      assert BlockStored(v, k);
    }
    forall p | 0 <= p < |w.keys| ensures SlotStored(w, p) {
      assert SlotStored(v, p);
    }
  }

  /** Changing anything but backing slots keeps the backing store exact. */
  lemma SameBackingStaysExact(before: map<KvKey, Block>, after: map<KvKey, Block>, capacity: nat, free: seq<nat>)
    requires Backing(before, capacity, free)
    requires after.Keys == before.Keys && forall k :: k in before ==> after[k].backing == before[k].backing
    ensures Backing(after, capacity, free)
  {
    forall x ensures BackingUsed(after, x) <==> BackingUsed(before, x) {
      if BackingUsed(before, x) {
        var k :| k in before && before[k].backing == x;
        assert after[k].backing == x;
      }
    }
  }

  lemma SweepKeepsPlacement(v: View, w: View)
    requires Placement(v) && Sweeps(v, w)
    ensures Placement(w) && SameOwners(v.blk, w.blk)
    ensures w == v.(blk := w.blk, keys := w.keys, states := w.states, lastUsed := w.lastUsed, disk := w.disk)
    ensures |w.keys| == |v.keys|
  {
    if w != v {
      var bk :| Evictable(v, bk) && w == Spilled(v, bk);
      SpillKeepsPlacement(v, bk);
    }
  }

  lemma AdmitKeepsPlacement(v: View, bk: KvKey, p: nat, backing: nat)
    requires Placement(v) && bk !in v.blk && !bk.IsEmpty() && IsFree(v, p)
    ensures Placement(Admitted(v, bk, p, backing))
  {
    var w := Admitted(v, bk, p, backing);
    forall k | k in w.blk ensures BlockStored(w, k) {
      assert k != bk ==> BlockStored(v, k);
    }
    forall q | 0 <= q < |w.keys| ensures SlotStored(w, q) {
      assert SlotStored(v, q);
    }
  }

  /** Taking the head of the free list for a new block keeps the backing store exact. */
  lemma BackingAcquired(blk: map<KvKey, Block>, capacity: nat, free: seq<nat>, bk: KvKey, b: Block)
    requires Backing(blk, capacity, free) && bk !in blk
    requires capacity == 0 ==> b.backing == NO_BLOCK
    requires capacity > 0 ==> free != [] && b.backing == free[0]
    ensures Backing(blk[bk := b], capacity, if capacity == 0 then free else free[1..])
  {
    if capacity > 0 {
      var after, rest := blk[bk := b], free[1..];
      assert free == [b.backing] + rest && b.backing in free;
      forall k | k in blk ensures blk[k].backing != b.backing {
        assert BackingUsed(blk, blk[k].backing);
      }
      forall x: nat ensures BackingUsed(after, x) <==> BackingUsed(blk, x) || x == b.backing {
        if BackingUsed(blk, x) {
          var k :| k in blk && blk[k].backing == x;
          assert after[k].backing == x;
        }
        assert after[bk].backing == b.backing;
      }
      forall x: nat ensures x in rest <==> x in free && x != b.backing {
      }
    }
  }

  /** Returning a dropped block's slot to the free list keeps the backing store exact. */
  lemma BackingReleased(blk: map<KvKey, Block>, capacity: nat, free: seq<nat>, bk: KvKey)
    requires Backing(blk, capacity, free) && bk in blk
    ensures Backing(blk - {bk}, capacity, if capacity == 0 then free else [blk[bk].backing] + free)
  {
    if capacity > 0 {
      var after, freed := blk - {bk}, blk[bk].backing;
      assert BackingUsed(blk, freed);
      forall x: nat ensures BackingUsed(after, x) <==> BackingUsed(blk, x) && x != freed {
        if BackingUsed(blk, x) && x != freed {
          var k :| k in blk && blk[k].backing == x;
          assert after[k].backing == x;
        }
      }
    }
  }

  lemma FreeKeepsStorage(v: View, bk: KvKey)
    requires Storage(v) && bk in v.blk
    requires v.blk[bk].onGpu ==> v.blk[bk].physical < |v.keys| && PinCount(v, v.blk[bk].physical) == 0
    ensures Storage(Freed(v, bk))
  {
    var w := Freed(v, bk);
    assert BlockStored(v, bk);
    forall k | k in w.blk ensures BlockStored(w, k) {
      assert BlockStored(v, k);
    }
    forall p | 0 <= p < |w.keys| ensures SlotStored(w, p) {
      assert SlotStored(v, p);
    }
    BackingReleased(v.blk, v.backingCapacity, v.freeList, bk);
  }

  lemma FaultKeepsStorage(v: View, bk: KvKey, p: nat)
    requires Storage(v) && bk in v.blk && !v.blk[bk].onGpu && IsFree(v, p)
    ensures Storage(Faulted(v, bk, p))
  {
    var w := Faulted(v, bk, p);
    assert BlockStored(v, bk);
    forall k | k in w.blk ensures BlockStored(w, k) {
      assert BlockStored(v, k);
    }
    forall q | 0 <= q < |w.keys| ensures SlotStored(w, q) {
      assert SlotStored(v, q);
    }
    SameBackingStaysExact(v.blk, w.blk, v.backingCapacity, v.freeList);
  }

  lemma RekeyKeepsBacking(blk: map<KvKey, Block>, capacity: nat, free: seq<nat>, from: KvKey, bk: KvKey)
    requires Backing(blk, capacity, free) && from in blk && bk !in blk
    ensures Backing((blk - {from})[bk := blk[from]], capacity, free)
  {
    var after := (blk - {from})[bk := blk[from]];
    forall x: nat ensures BackingUsed(after, x) <==> BackingUsed(blk, x) {
      if BackingUsed(blk, x) {
        var k :| k in blk && blk[k].backing == x;
        assert after[if k == from then bk else k].backing == x;
      }
    }
  }

  lemma RekeyKeepsStorage(v: View, from: KvKey, bk: KvKey)
    requires Storage(v) && from in v.blk && bk !in v.blk && !bk.IsEmpty()
    requires v.blk[from].onGpu ==> v.blk[from].physical < |v.keys|
    ensures Storage(Rekeyed(v, from, bk))
  {
    var w := Rekeyed(v, from, bk);
    assert BlockStored(v, from);
    forall k | k in w.blk ensures BlockStored(w, k) {
      assert k != bk ==> BlockStored(v, k);
    }
    forall p | 0 <= p < |w.keys| ensures SlotStored(w, p) {
      assert SlotStored(v, p);
    }
    RekeyKeepsBacking(v.blk, v.backingCapacity, v.freeList, from, bk);
  }

  /** What storage depends on: `w` keeps `v`'s slots, blocks' places and free list. */
  ghost predicate SamePlaces(v: View, w: View) {
    && Shaped(v) && Shaped(w) && w.keys == v.keys && w.backingCapacity == v.backingCapacity && w.freeList == v.freeList
    && w.blk.Keys == v.blk.Keys
    && (forall k :: k in v.blk ==>
          && w.blk[k].physical == v.blk[k].physical && w.blk[k].onGpu == v.blk[k].onGpu
          && w.blk[k].backing == v.blk[k].backing
          && (!v.blk[k].onGpu && v.blk[k].backingValid ==> w.blk[k].backingValid))
    && (forall p :: 0 <= p < |v.keys| ==>
          && (w.states[p] == Transient <==> v.states[p] == Transient)
          && (v.keys[p].IsEmpty() ==> w.states[p] == v.states[p] && PinCount(w, p) == PinCount(v, p)))
  }

  lemma SamePlacesKeepStorage(v: View, w: View)
    requires Storage(v) && SamePlaces(v, w)
    ensures Storage(w)
  {
    forall k | k in w.blk ensures BlockStored(w, k) {
      assert BlockStored(v, k);
    }
    forall p | 0 <= p < |w.keys| ensures SlotStored(w, p) {
      assert SlotStored(v, p);
    }
    SameBackingStaysExact(v.blk, w.blk, v.backingCapacity, v.freeList);
  }

  /** Claiming a free slot as a transient one touches no block. */
  lemma TransientKeepsStorage(v: View, p: nat, key: KvKey, pins: seq<nat>)
    requires Storage(v) && IsFree(v, p) && !key.IsEmpty()
    requires v.pins.Some? && |pins| == |v.keys| && forall q :: 0 <= q < |pins| && q != p ==> pins[q] == v.pins.value[q]
    ensures Storage(Assigned(v, p, key, Transient).(pins := Some(pins)))
  {
    var w := Assigned(v, p, key, Transient).(pins := Some(pins));
    forall k | k in w.blk ensures BlockStored(w, k) {
      assert BlockStored(v, k);
    }
    forall q | 0 <= q < |w.keys| ensures SlotStored(w, q) {
      assert SlotStored(v, q);
    }
  }

  /** Releasing a transient slot touches no block. */
  lemma TransientReleaseKeepsStorage(v: View, p: nat, pins: seq<nat>)
    requires Storage(v) && p < |v.keys| && v.states[p] == Transient && !v.keys[p].IsEmpty()
    requires v.pins.Some? && |pins| == |v.keys| && pins[p] == 0
    requires forall q :: 0 <= q < |pins| && q != p ==> pins[q] == v.pins.value[q]
    ensures Storage(Cleared(v, p).(pins := Some(pins)))
  {
    var w := Cleared(v, p).(pins := Some(pins));
    forall k | k in w.blk ensures BlockStored(w, k) {
      assert BlockStored(v, k);
    }
    forall q | 0 <= q < |w.keys| ensures SlotStored(w, q) {
      assert SlotStored(v, q);
    }
  }

  // ---- What a build keeps --------------------------------------------------

  /** Block `bk` sits in physical slot `p` and was used this epoch. */
  ghost predicate Live(v: View, bk: KvKey, p: nat) {
    && bk in v.blk && v.blk[bk].onGpu && v.blk[bk].physical == p
    && p < |v.lastUsed| && v.lastUsed[p] == v.epoch
  }

  /** Every block used this epoch stays where it is, except those in `gone`. */
  ghost predicate KeepsLive(v: View, w: View, gone: set<KvKey>) {
    w.epoch == v.epoch && forall bk, p: nat :: bk !in gone && Live(v, bk, p) ==> Live(w, bk, p)
  }

  /** Directory slot `dk` names a block that sits in physical slot `p` and was used this epoch. */
  ghost predicate Placed(v: View, dk: KvKey, p: nat) {
    dk in v.dir && Live(v, v.dir[dk], p)
  }

  /** Every directory slot placed this epoch stays placed, except `dk`. */
  ghost predicate KeepsPlacedBut(v: View, w: View, dk: KvKey) {
    forall k, p: nat :: k != dk && Placed(v, k, p) ==> Placed(w, k, p) && w.dir[k] == v.dir[k]
  }

  lemma SweepKeepsLive(v: View, w: View)
    requires Placement(v) && Sweeps(v, w)
    ensures KeepsLive(v, w, {})
  {
    if w != v {
      var e :| Evictable(v, e) && w == Spilled(v, e);
      forall bk, p: nat | Live(v, bk, p) ensures Live(w, bk, p) {
        assert BlockStored(v, bk) && BlockStored(v, e);
      }
    }
  }

  lemma AdmitKeepsLive(v: View, bk: KvKey, q: nat, backing: nat)
    requires Placement(v) && bk !in v.blk && IsFree(v, q)
    ensures KeepsLive(v, Admitted(v, bk, q, backing), {})
    ensures Live(Admitted(v, bk, q, backing), bk, q)
  {
    var w := Admitted(v, bk, q, backing);
    forall k, p: nat | Live(v, k, p) ensures Live(w, k, p) {
      assert BlockStored(v, k);
    }
  }

  lemma FaultKeepsLive(v: View, bk: KvKey, q: nat)
    requires Placement(v) && bk in v.blk && IsFree(v, q) && !v.blk[bk].onGpu
    ensures KeepsLive(v, Faulted(v, bk, q), {})
    ensures Live(Faulted(v, bk, q), bk, q)
  {
    var w := Faulted(v, bk, q);
    forall k, p: nat | Live(v, k, p) ensures Live(w, k, p) {
      assert BlockStored(v, k);
    }
  }

  lemma FreeKeepsLive(v: View, bk: KvKey)
    requires Placement(v) && bk in v.blk && (v.blk[bk].onGpu ==> v.blk[bk].physical < |v.keys|)
    ensures KeepsLive(v, Freed(v, bk), {bk})
  {
    var w := Freed(v, bk);
    assert BlockStored(v, bk);
    forall k, p: nat | k != bk && Live(v, k, p) ensures Live(w, k, p) {
      assert BlockStored(v, k);
    }
  }

  /** Only slot `dk` is bound anew. */
  ghost predicate MovesOnly(before: map<KvKey, KvKey>, after: map<KvKey, KvKey>, dk: KvKey) {
    forall k :: k in before && k != dk ==> k in after && after[k] == before[k]
  }

  /** No slot but `dk` names a block that is gone. */
  ghost predicate Spares(dir: map<KvKey, KvKey>, dk: KvKey, gone: set<KvKey>) {
    forall k :: k in dir && k != dk ==> dir[k] !in gone
  }

  lemma UpdateMovesOnly(dir: map<KvKey, KvKey>, dk: KvKey, bk: KvKey)
    ensures MovesOnly(dir, dir[dk := bk], dk) && Spares(dir, dk, {})
  {
  }

  /** Live blocks that another directory slot names survive whatever frees only `dk`'s last reference. */
  lemma LiveIsPlaced(v: View, w: View, gone: set<KvKey>, dk: KvKey)
    requires KeepsLive(v, w, gone) && MovesOnly(v.dir, w.dir, dk) && Spares(v.dir, dk, gone)
    ensures KeepsPlacedBut(v, w, dk)
  {
    forall k, p: nat | k != dk && Placed(v, k, p) ensures Placed(w, k, p) && w.dir[k] == v.dir[k] {
      assert Live(v, v.dir[k], p);
    }
  }

  // ---- Counters ------------------------------------------------------------

  ghost function Swapped(blk: map<KvKey, Block>): set<KvKey> {
    set k | k in blk && !blk[k].onGpu
  }

  /** Number of occupied physical slots. */
  ghost function Occupied(keys: seq<KvKey>): nat {
    if keys == [] then 0
    else Occupied(keys[..|keys| - 1]) + if keys[|keys| - 1].IsEmpty() then 0 else 1
  }

  lemma {:induction false} OccupiedAfterUpdate(keys: seq<KvKey>, p: nat, key: KvKey)
    requires p < |keys|
    ensures Occupied(keys[p := key])
            == Occupied(keys) - (if keys[p].IsEmpty() then 0 else 1) + if key.IsEmpty() then 0 else 1
  {
    var n := |keys|;
    if p == n - 1 {
      assert keys[p := key][..n - 1] == keys[..n - 1];
    } else {
      OccupiedAfterUpdate(keys[..n - 1], p, key);
      assert keys[p := key][..n - 1] == keys[..n - 1][p := key];
    }
  }

  lemma SwappedAfterUpdate(blk: map<KvKey, Block>, k: KvKey, b: Block)
    requires k in blk
    ensures |Swapped(blk[k := b])| == |Swapped(blk)| + (if blk[k].onGpu then 0 else -1) + if b.onGpu then 0 else 1
  {
    var rest := Swapped(blk) - {k};
    assert Swapped(blk) == rest + if blk[k].onGpu then {} else {k};
    assert Swapped(blk[k := b]) == rest + if b.onGpu then {} else {k};
  }

  lemma SwappedAfterInsert(blk: map<KvKey, Block>, k: KvKey, b: Block)
    requires k !in blk
    ensures |Swapped(blk[k := b])| == |Swapped(blk)| + if b.onGpu then 0 else 1
  {
    assert Swapped(blk[k := b]) == Swapped(blk) + if b.onGpu then {} else {k};
  }

  lemma SwappedAfterRemove(blk: map<KvKey, Block>, k: KvKey)
    requires k in blk
    ensures |Swapped(blk - {k})| == |Swapped(blk)| - if blk[k].onGpu then 0 else 1
    ensures |blk - {k}| == |blk| - 1
  {
    assert Swapped(blk) == Swapped(blk - {k}) + if blk[k].onGpu then {} else {k};
    assert (blk - {k}).Keys == blk.Keys - {k};
  }

  lemma SizeAfterInsert<K, V>(m: map<K, V>, k: K, value: V)
    ensures |m[k := value]| == |m| + if k in m then 0 else 1
  {
    assert m[k := value].Keys == m.Keys + {k};
  }

  lemma SizeAfterRemove<K, V>(m: map<K, V>, k: K)
    requires k in m
    ensures |m - {k}| == |m| - 1
  {
    assert (m - {k}).Keys == m.Keys - {k};
  }

  /** What spilling does to the counters. */
  lemma SpillCounts(v: View, bk: KvKey)
    requires Placement(v) && Evictable(v, bk)
    ensures var w := Spilled(v, bk);
      |w.blk| == |v.blk| && |Swapped(w.blk)| == |Swapped(v.blk)| + 1 && Occupied(w.keys) == Occupied(v.keys) - 1
  {
    var b := v.blk[bk];
    assert BlockStored(v, bk);
    SizeAfterInsert(v.blk, bk, Spilled(v, bk).blk[bk]);
    SwappedAfterUpdate(v.blk, bk, Spilled(v, bk).blk[bk]);
    OccupiedAfterUpdate(v.keys, b.physical, EMPTY_KEY);
  }

  lemma AdmitCounts(v: View, bk: KvKey, p: nat, backing: nat)
    requires Shaped(v) && bk !in v.blk && !bk.IsEmpty() && IsFree(v, p)
    ensures var w := Admitted(v, bk, p, backing);
      |w.blk| == |v.blk| + 1 && |Swapped(w.blk)| == |Swapped(v.blk)| && Occupied(w.keys) == Occupied(v.keys) + 1
  {
    var b := Block(p, backing, 1, true, false, 0);
    SizeAfterInsert(v.blk, bk, b);
    SwappedAfterInsert(v.blk, bk, b);
    OccupiedAfterUpdate(v.keys, p, bk);
  }

  lemma FaultCounts(v: View, bk: KvKey, p: nat)
    requires Shaped(v) && bk in v.blk && !v.blk[bk].onGpu && !bk.IsEmpty() && IsFree(v, p)
    ensures var w := Faulted(v, bk, p);
      |w.blk| == |v.blk| && |Swapped(w.blk)| == |Swapped(v.blk)| - 1 && Occupied(w.keys) == Occupied(v.keys) + 1
  {
    var b := v.blk[bk].(physical := p, onGpu := true);
    SizeAfterInsert(v.blk, bk, b);
    SwappedAfterUpdate(v.blk, bk, b);
    OccupiedAfterUpdate(v.keys, p, bk);
  }

  lemma FreeCounts(v: View, bk: KvKey)
    requires Placement(v) && bk in v.blk && (v.blk[bk].onGpu ==> v.blk[bk].physical < |v.keys|)
    ensures var w := Freed(v, bk);
      && |w.blk| == |v.blk| - 1
      && |Swapped(w.blk)| == |Swapped(v.blk)| - (if v.blk[bk].onGpu then 0 else 1)
      && Occupied(w.keys) == Occupied(v.keys) - if v.blk[bk].onGpu then 1 else 0
  {
    assert BlockStored(v, bk);
    SwappedAfterRemove(v.blk, bk);
    if v.blk[bk].onGpu {
      OccupiedAfterUpdate(v.keys, v.blk[bk].physical, EMPTY_KEY);
    }
  }

  lemma RekeyCounts(v: View, from: KvKey, bk: KvKey)
    requires Placement(v) && from in v.blk && bk !in v.blk && !bk.IsEmpty()
    requires v.blk[from].onGpu ==> v.blk[from].physical < |v.keys|
    ensures var w := Rekeyed(v, from, bk);
      |w.blk| == |v.blk| && |Swapped(w.blk)| == |Swapped(v.blk)| && Occupied(w.keys) == Occupied(v.keys)
  {
    assert BlockStored(v, from);
    SwappedAfterRemove(v.blk, from);
    SwappedAfterInsert(v.blk - {from}, bk, v.blk[from]);
    SizeAfterInsert(v.blk - {from}, bk, v.blk[from]);
    if v.blk[from].onGpu {
      OccupiedAfterUpdate(v.keys, v.blk[from].physical, bk);
    }
  }

  // ---- Taking and dropping references --------------------------------------

  /** The free list with its head taken, when there is a backing store. */
  function Rest(v: View): seq<nat> {
    if v.backingCapacity == 0 || v.freeList == [] then v.freeList else v.freeList[1..]
  }

  /** The backing slot the next admitted block gets. */
  function NextBacking(v: View): nat {
    if v.backingCapacity == 0 || v.freeList == [] then NO_BLOCK else v.freeList[0]
  }

  /** One more reference on `bk`: share it, or admit it to a swept physical slot and the next backing slot. */
  ghost predicate Resolved(v: View, w: View, bk: KvKey) {
    if bk in v.blk then w == WithRefs(v, bk, v.blk[bk].refs + 1)
    else
      && (v.backingCapacity > 0 ==> v.freeList != [])
      && exists u: View, p: nat ::
           Sweeps(v.(freeList := Rest(v)), u) && IsFree(u, p) && Shaped(u) && w == Admitted(u, bk, p, NextBacking(v))
  }

  lemma PlacementIgnoresFreeList(v: View, free: seq<nat>)
    requires Placement(v)
    ensures Placement(v.(freeList := free))
  {
    var w := v.(freeList := free);
    forall k | k in w.blk ensures BlockStored(w, k) {
      assert BlockStored(v, k);
    }
    forall p | 0 <= p < |w.keys| ensures SlotStored(w, p) {
      assert SlotStored(v, p);
    }
  }

  lemma LiveIgnoresFreeList(v: View, free: seq<nat>)
    ensures KeepsLive(v, v.(freeList := free), {})
  {
  }

  lemma AdmitAfterSweepKeeps(v: View, u: View, bk: KvKey, p: nat)
    requires Storage(v) && bk !in v.blk && !bk.IsEmpty() && (v.backingCapacity > 0 ==> v.freeList != [])
    requires Sweeps(v.(freeList := Rest(v)), u) && IsFree(u, p) && Shaped(u)
    ensures var w := Admitted(u, bk, p, NextBacking(v));
      && Storage(w) && RefAdded(v.blk, w.blk, bk) && KeepsLive(v, w, {})
      && w.dir == v.dir && w.pins == v.pins && |w.keys| == |v.keys|
  {
    var v' := v.(freeList := Rest(v));
    var w := Admitted(u, bk, p, NextBacking(v));
    PlacementIgnoresFreeList(v, Rest(v));
    SweepKeepsPlacement(v', u);
    AdmitKeepsPlacement(u, bk, p, NextBacking(v));
    assert KeepsLive(v, w, {}) by {
      LiveIgnoresFreeList(v, Rest(v));
      SweepKeepsLive(v', u);
      AdmitKeepsLive(u, bk, p, NextBacking(v));
    }
    assert Backing(w.blk, w.backingCapacity, w.freeList) by {
      SameBackingStaysExact(v.blk, u.blk, v.backingCapacity, v.freeList);
      BackingAcquired(u.blk, v.backingCapacity, v.freeList, bk, w.blk[bk]);
    }
  }

  /** The result of a resolve is stored, has one more reference, and disturbs no live block. */
  lemma ResolvedKeeps(v: View, w: View, bk: KvKey)
    requires Storage(v) && Resolved(v, w, bk) && !bk.IsEmpty()
    ensures Storage(w) && RefAdded(v.blk, w.blk, bk) && KeepsLive(v, w, {})
    ensures w.dir == v.dir && w.pins == v.pins && |w.keys| == |v.keys|
    ensures bk in v.blk ==> w == v.(blk := w.blk)
  {
    if bk in v.blk {
      SamePlacesKeepStorage(v, w);
    } else {
      var v' := v.(freeList := Rest(v));
      var u: View, p: nat :| Sweeps(v', u) && IsFree(u, p) && Shaped(u) && w == Admitted(u, bk, p, NextBacking(v));
      AdmitAfterSweepKeeps(v, u, bk, p);
    }
  }

  /** Whether a block sits in a pinned slot. */
  ghost predicate IsPinned(v: View, bk: KvKey) {
    Shaped(v) && bk in v.blk && v.blk[bk].onGpu && v.blk[bk].physical < |v.keys| && PinCount(v, v.blk[bk].physical) != 0
  }

  /** One reference fewer on `bk`; the last one frees the block. */
  ghost function Dropped(v: View, bk: KvKey): View
    requires BlockStored(v, bk)
  {
    if v.blk[bk].refs > 1 then WithRefs(v, bk, v.blk[bk].refs - 1) else Freed(v, bk)
  }

  lemma DroppedKeeps(v: View, bk: KvKey)
    requires Storage(v) && BlockStored(v, bk) && v.blk[bk].refs > 0 && (v.blk[bk].refs == 1 ==> !IsPinned(v, bk))
    ensures Storage(Dropped(v, bk)) && RefDropped(v.blk, Dropped(v, bk).blk, bk)
    ensures KeepsLive(v, Dropped(v, bk), if v.blk[bk].refs == 1 then {bk} else {})
  {
    if v.blk[bk].refs > 1 {
      SamePlacesKeepStorage(v, Dropped(v, bk));
    } else {
      FreeKeepsStorage(v, bk);
      FreeKeepsLive(v, bk);
    }
  }

  /** `bk` has been brought to physical slot `p`: touched where it was, or faulted in after a sweep. */
  ghost predicate MadeResident(v: View, w: View, bk: KvKey, p: nat) {
    && Shaped(v) && bk in v.blk
    && if v.blk[bk].onGpu then p == v.blk[bk].physical < |v.keys| && w == v.(lastUsed := v.lastUsed[p := v.epoch])
       else exists u: View :: Sweeps(v, u) && IsFree(u, p) && Shaped(u) && bk in u.blk && w == Faulted(u, bk, p)
  }

  lemma SweptBlockStaysSwapped(v: View, u: View, bk: KvKey)
    requires Shaped(v) && Sweeps(v, u) && bk in v.blk && !v.blk[bk].onGpu
    ensures bk in u.blk && u.blk[bk] == v.blk[bk]
  {
  }

  lemma FaultAfterSweepKeeps(v: View, u: View, bk: KvKey, p: nat)
    requires Storage(v) && bk in v.blk && !v.blk[bk].onGpu
    requires Sweeps(v, u) && IsFree(u, p) && Shaped(u) && bk in u.blk
    ensures var w := Faulted(u, bk, p);
      && Storage(w) && SameRefs(v.blk, w.blk) && KeepsLive(v, w, {}) && Live(w, bk, p)
      && w.dir == v.dir && w.pins == v.pins && |w.keys| == |v.keys| && w.freeList == v.freeList
  {
    var w := Faulted(u, bk, p);
    SweptBlockStaysSwapped(v, u, bk);
    SweepKeepsPlacement(v, u);
    assert Storage(w) by {
      SameBackingStaysExact(v.blk, u.blk, v.backingCapacity, v.freeList);
      FaultKeepsStorage(u, bk, p);
    }
    assert KeepsLive(v, w, {}) && Live(w, bk, p) by {
      SweepKeepsLive(v, u);
      FaultKeepsLive(u, bk, p);
    }
  }

  lemma MadeResidentKeeps(v: View, w: View, bk: KvKey, p: nat)
    requires Storage(v) && MadeResident(v, w, bk, p)
    ensures Storage(w) && SameRefs(v.blk, w.blk) && KeepsLive(v, w, {}) && Live(w, bk, p)
    ensures w.dir == v.dir && w.pins == v.pins && |w.keys| == |v.keys| && w.freeList == v.freeList
  {
    if v.blk[bk].onGpu {
      SamePlacesKeepStorage(v, w);
    } else {
      var u: View :| Sweeps(v, u) && IsFree(u, p) && Shaped(u) && bk in u.blk && w == Faulted(u, bk, p);
      FaultAfterSweepKeeps(v, u, bk, p);
    }
  }

  // ---- Binding a directory slot --------------------------------------------

  /** Slot `dk`, until now unbound, takes a reference on `bk`. */
  ghost predicate Inserted(v: View, w: View, dk: KvKey, bk: KvKey) {
    exists m: View :: Resolved(v, m, bk) && w == m.(dir := v.dir[dk := bk])
  }

  /**
   * Slot `dk` moves to `bk`: refused while its block is pinned, in place when the block is unshared and `bk` is
   * new, otherwise by taking a reference on `bk` and dropping the old one.
   */
  ghost predicate Promoted(v: View, w: View, dk: KvKey, bk: KvKey)
    requires dk in v.dir && BlockStored(v, v.dir[dk])
  {
    var from := v.dir[dk];
    if IsPinned(v, from) then w == v
    else if bk !in v.blk && v.blk[from].refs == 1 then w == Rekeyed(v, from, bk).(dir := v.dir[dk := bk])
    else exists m: View ::
           && Resolved(v, m, bk) && BlockStored(m, from)
           && w == Dropped(m, from).(dir := v.dir[dk := bk])
  }

  /** Storage and liveness do not depend on the directory. */
  lemma StorageIgnoresDirectory(v: View, dir: map<KvKey, KvKey>)
    requires Storage(v)
    ensures Storage(v.(dir := dir))
  {
    SamePlacesKeepStorage(v, v.(dir := dir));
  }

  lemma LiveIgnoresDirectory(v: View, m: View, gone: set<KvKey>, dir: map<KvKey, KvKey>)
    requires KeepsLive(v, m, gone)
    ensures KeepsLive(v, m.(dir := dir), gone)
  {
    forall k, p: nat | k !in gone && Live(v, k, p) ensures Live(m.(dir := dir), k, p) {
      assert Live(m, k, p);
    }
  }

  /** Stored blocks and exact counts make a consistent state. */
  lemma StorageAndNaming(v: View, dir: map<KvKey, KvKey>)
    requires Storage(v) && Naming(dir, v.blk)
    ensures Coherent(v.(dir := dir))
  {
    StorageIgnoresDirectory(v, dir);
    OpenCoherent(v.(dir := dir));
  }

  /** Binding a new slot to a block that gained a reference. */
  lemma BindKeeps(v: View, m: View, dk: KvKey, bk: KvKey)
    requires Naming(v.dir, v.blk) && Storage(m) && RefAdded(v.blk, m.blk, bk)
    requires dk !in v.dir && IsPrivate(dk) && MayName(dk, bk)
    ensures Coherent(m.(dir := v.dir[dk := bk]))
  {
    NamingInsert(v.dir, v.blk, m.blk, dk, bk);
    StorageAndNaming(m, v.dir[dk := bk]);
  }

  lemma InsertedKeeps(v: View, w: View, dk: KvKey, bk: KvKey)
    requires Consistent(v) && Inserted(v, w, dk, bk) && !bk.IsEmpty()
    requires dk !in v.dir && IsPrivate(dk) && MayName(dk, bk)
    ensures Coherent(w) && KeepsPlacedBut(v, w, dk) && w.dir == v.dir[dk := bk]
    ensures w.pins == v.pins && w.epoch == v.epoch && |w.keys| == |v.keys|
  {
    var m: View :| Resolved(v, m, bk) && w == m.(dir := v.dir[dk := bk]);
    ResolvedKeeps(v, m, bk);
    BindKeeps(v, m, dk, bk);
    LiveIgnoresDirectory(v, m, {}, w.dir);
    UpdateMovesOnly(v.dir, dk, bk);
    LiveIsPlaced(v, w, {}, dk);
  }

  lemma RekeyKeepsLive(v: View, from: KvKey, bk: KvKey)
    requires Placement(v) && from in v.blk && bk !in v.blk && (v.blk[from].onGpu ==> v.blk[from].physical < |v.keys|)
    ensures KeepsLive(v, Rekeyed(v, from, bk), {from})
  {
  }

  /** No other slot names an unshared block. */
  lemma UnsharedHasOneNamer(v: View, dk: KvKey)
    requires Naming(v.dir, v.blk) && dk in v.dir && v.blk[v.dir[dk]].refs == 1
    ensures Spares(v.dir, dk, {v.dir[dk]})
  {
    NamedIsCounted(v.dir, dk);
  }

  lemma RekeyedKeeps(v: View, dk: KvKey, bk: KvKey)
    requires Consistent(v) && dk in v.dir && MayName(dk, bk) && bk !in v.blk && v.blk[v.dir[dk]].refs == 1
    requires BlockStored(v, v.dir[dk]) && !bk.IsEmpty()
    ensures var w := Rekeyed(v, v.dir[dk], bk).(dir := v.dir[dk := bk]);
      && Coherent(w) && KeepsPlacedBut(v, w, dk)
  {
    var from := v.dir[dk];
    var m := Rekeyed(v, from, bk);
    var w := m.(dir := v.dir[dk := bk]);
    RekeyKeepsStorage(v, from, bk);
    NamingRekey(v.dir, v.blk, dk, bk);
    StorageAndNaming(m, w.dir);
    UnsharedHasOneNamer(v, dk);
    RekeyKeepsLive(v, from, bk);
    LiveIgnoresDirectory(v, m, {from}, w.dir);
    UpdateMovesOnly(v.dir, dk, bk);
    LiveIsPlaced(v, w, {from}, dk);
  }

  /** A reference just taken elsewhere neither pins nor shares the block a slot is leaving. */
  lemma ResolveKeepsLeaver(v: View, m: View, dk: KvKey, bk: KvKey)
    requires Consistent(v) && Resolved(v, m, bk) && !bk.IsEmpty()
    requires dk in v.dir && bk != v.dir[dk] && !IsPinned(v, v.dir[dk]) && (bk in v.blk || v.blk[v.dir[dk]].refs > 1)
    ensures Storage(m) && BlockStored(m, v.dir[dk]) && m.blk[v.dir[dk]].refs == v.blk[v.dir[dk]].refs > 0
    ensures m.blk[v.dir[dk]].refs == 1 ==> !IsPinned(m, v.dir[dk])
  {
    ResolvedKeeps(v, m, bk);
    assert BlockStored(m, v.dir[dk]);
  }

  /** Moving a bound slot once the new reference is taken and the old one dropped. */
  lemma RebindKeeps(v: View, m: View, n: View, dk: KvKey, bk: KvKey)
    requires Naming(v.dir, v.blk) && Storage(n) && dk in v.dir && MayName(dk, bk) && bk != v.dir[dk]
    requires RefAdded(v.blk, m.blk, bk) && RefDropped(m.blk, n.blk, v.dir[dk])
    ensures Coherent(n.(dir := v.dir[dk := bk]))
  {
    NamingMove(v.dir, v.blk, m.blk, n.blk, dk, bk);
    StorageAndNaming(n, v.dir[dk := bk]);
  }

  lemma RebindKeepsPlaced(v: View, m: View, n: View, dir: map<KvKey, KvKey>, dk: KvKey, gone: set<KvKey>)
    requires KeepsLive(v, m, {}) && KeepsLive(m, n, gone)
    requires MovesOnly(v.dir, dir, dk) && Spares(v.dir, dk, gone)
    ensures KeepsPlacedBut(v, n.(dir := dir), dk)
  {
    assert KeepsLive(v, n, gone);
    LiveIgnoresDirectory(v, n, gone, dir);
    LiveIsPlaced(v, n.(dir := dir), gone, dk);
  }

  lemma LeaveKeeps(v: View, m: View, dk: KvKey, bk: KvKey)
    requires Consistent(v) && dk in v.dir && MayName(dk, bk) && bk != v.dir[dk]
    requires Storage(m) && RefAdded(v.blk, m.blk, bk) && KeepsLive(v, m, {})
    requires BlockStored(m, v.dir[dk]) && m.blk[v.dir[dk]].refs == v.blk[v.dir[dk]].refs > 0
    requires m.blk[v.dir[dk]].refs == 1 ==> !IsPinned(m, v.dir[dk])
    ensures var w := Dropped(m, v.dir[dk]).(dir := v.dir[dk := bk]);
      Coherent(w) && KeepsPlacedBut(v, w, dk)
  {
    var from := v.dir[dk];
    DroppedKeeps(m, from);
    var gone := if m.blk[from].refs == 1 then {from} else {};
    if m.blk[from].refs == 1 {
      UnsharedHasOneNamer(v, dk);
    }
    RebindKeeps(v, m, Dropped(m, from), dk, bk);
    UpdateMovesOnly(v.dir, dk, bk);
    RebindKeepsPlaced(v, m, Dropped(m, from), v.dir[dk := bk], dk, gone);
  }

  lemma DroppedFrame(v: View, bk: KvKey)
    requires BlockStored(v, bk)
    ensures var w := Dropped(v, bk);
      w.pins == v.pins && w.epoch == v.epoch && |w.keys| == |v.keys| && w.dir == v.dir
  {
  }

  lemma MovedKeeps(v: View, m: View, dk: KvKey, bk: KvKey)
    requires Consistent(v) && Resolved(v, m, bk) && !bk.IsEmpty()
    requires dk in v.dir && MayName(dk, bk) && bk != v.dir[dk] && !IsPinned(v, v.dir[dk])
    requires bk in v.blk || v.blk[v.dir[dk]].refs > 1
    ensures Storage(m) && BlockStored(m, v.dir[dk])
    ensures var w := Dropped(m, v.dir[dk]).(dir := v.dir[dk := bk]);
      && Coherent(w) && KeepsPlacedBut(v, w, dk)
      && w.pins == v.pins && w.epoch == v.epoch && |w.keys| == |v.keys|
  {
    ResolvedKeeps(v, m, bk);
    ResolveKeepsLeaver(v, m, dk, bk);
    LeaveKeeps(v, m, dk, bk);
    DroppedFrame(m, v.dir[dk]);
  }

  /** Where a slot asked for `bk` ends up: there, unless the block it already names is pinned. */
  ghost function Target(v: View, dk: KvKey, bk: KvKey): KvKey {
    if dk in v.dir && v.dir[dk] != bk && IsPinned(v, v.dir[dk]) then v.dir[dk] else bk
  }

  lemma PromotedKeeps(v: View, w: View, dk: KvKey, bk: KvKey)
    requires Consistent(v) && dk in v.dir && MayName(dk, bk) && bk != v.dir[dk] && !bk.IsEmpty()
    requires BlockStored(v, v.dir[dk]) && Promoted(v, w, dk, bk)
    ensures KeepsPlacedBut(v, w, dk) && w.dir == v.dir[dk := Target(v, dk, bk)]
    ensures w.pins == v.pins && w.epoch == v.epoch && |w.keys| == |v.keys|
  {
    var from := v.dir[dk];
    if IsPinned(v, from) {
      assert w.dir == v.dir[dk := from];
    } else if bk !in v.blk && v.blk[from].refs == 1 {
      RekeyedKeeps(v, dk, bk);
    } else {
      assert bk !in v.blk ==> v.blk[from].refs == NameCount(v.dir, from) > 0;
      var m: View :| Resolved(v, m, bk) && BlockStored(m, from) && w == Dropped(m, from).(dir := v.dir[dk := bk]);
      MovedKeeps(v, m, dk, bk);
    }
  }

  /** Unbinding slot `dk` drops its reference. */
  lemma ReleasedKeeps(v: View, dk: KvKey)
    requires Consistent(v) && dk in v.dir && BlockStored(v, v.dir[dk])
    requires v.blk[v.dir[dk]].refs == 1 ==> !IsPinned(v, v.dir[dk])
    ensures Coherent(Dropped(v, v.dir[dk]).(dir := v.dir - {dk}))
  {
    var from := v.dir[dk];
    NamedIsCounted(v.dir, dk);
    DroppedKeeps(v, from);
    NamingRemove(v.dir, v.blk, Dropped(v, from).blk, dk);
    StorageAndNaming(Dropped(v, from), v.dir - {dk});
  }

  // ---- Pinned blocks -------------------------------------------------------

  /** The same blocks are pinned, each in the same physical slot, under the same key. */
  ghost predicate KeepsPinned(v: View, w: View) {
    forall bk ::
      && (IsPinned(w, bk) <==> IsPinned(v, bk))
      && (IsPinned(v, bk) ==> w.blk[bk].physical == v.blk[bk].physical)
  }

  ghost predicate SamePins(v: View, w: View) {
    w.pins == v.pins && KeepsPinned(v, w)
  }

  lemma SamePinsChain(u: View, v: View, w: View)
    requires SamePins(u, v) && SamePins(v, w)
    ensures SamePins(u, w)
  {
    forall bk
      ensures (IsPinned(w, bk) <==> IsPinned(u, bk)) && (IsPinned(u, bk) ==> w.blk[bk].physical == u.blk[bk].physical)
    {
      assert IsPinned(w, bk) <==> IsPinned(v, bk);
    }
  }

  /** The blocks in pinned slots. */
  ghost function PinnedBlocks(v: View): set<KvKey> {
    set bk | bk in v.blk && IsPinned(v, bk)
  }

  lemma SamePinnedBlocks(v: View, w: View)
    requires KeepsPinned(v, w)
    ensures PinnedBlocks(w) == PinnedBlocks(v)
  {
    forall bk ensures bk in PinnedBlocks(w) <==> bk in PinnedBlocks(v) {
      assert IsPinned(w, bk) <==> IsPinned(v, bk);
    }
  }

  /** Moving the epoch on, and then keeping the pins, keeps the pins. */
  lemma SamePinsAcrossEpochs(v: View, w: View, epoch: nat)
    requires SamePins(v.(epoch := epoch), w)
    ensures SamePins(v, w)
  {
    forall bk ensures IsPinned(v.(epoch := epoch), bk) <==> IsPinned(v, bk) {
    }
  }

  lemma SweepKeepsPinned(v: View, w: View)
    requires Placement(v) && Sweeps(v, w)
    ensures KeepsPinned(v, w)
  {
    if w != v {
      var bk :| Evictable(v, bk) && w == Spilled(v, bk);
      forall k | IsPinned(v, k) ensures IsPinned(w, k) && w.blk[k].physical == v.blk[k].physical {
        assert BlockStored(v, k) && BlockStored(v, bk);
      }
    }
  }

  lemma AdmitKeepsPinned(v: View, bk: KvKey, p: nat, backing: nat)
    requires Placement(v) && bk !in v.blk && IsFree(v, p)
    ensures KeepsPinned(v, Admitted(v, bk, p, backing))
  {
    assert SlotStored(v, p);
  }

  lemma ResolvedKeepsPinned(v: View, w: View, bk: KvKey)
    requires Placement(v) && Resolved(v, w, bk)
    ensures KeepsPinned(v, w)
  {
    if bk !in v.blk {
      var v' := v.(freeList := Rest(v));
      var u: View, p: nat :| Sweeps(v', u) && IsFree(u, p) && Shaped(u) && w == Admitted(u, bk, p, NextBacking(v));
      PlacementIgnoresFreeList(v, Rest(v));
      assert KeepsPinned(v, v');
      SweepKeepsPinned(v', u);
      SweepKeepsPlacement(v', u);
      AdmitKeepsPinned(u, bk, p, NextBacking(v));
    }
  }

  lemma DroppedKeepsPinned(v: View, bk: KvKey)
    requires Placement(v) && BlockStored(v, bk) && (v.blk[bk].refs <= 1 ==> !IsPinned(v, bk))
    ensures KeepsPinned(v, Dropped(v, bk))
  {
    forall k | IsPinned(v, k)
      ensures IsPinned(Dropped(v, bk), k) && Dropped(v, bk).blk[k].physical == v.blk[k].physical
    {
      assert BlockStored(v, k);
    }
  }

  lemma RekeyKeepsPinned(v: View, from: KvKey, bk: KvKey)
    requires Placement(v) && BlockStored(v, from) && bk !in v.blk && !IsPinned(v, from)
    ensures KeepsPinned(v, Rekeyed(v, from, bk))
  {
    forall k | IsPinned(v, k)
      ensures IsPinned(Rekeyed(v, from, bk), k) && Rekeyed(v, from, bk).blk[k].physical == v.blk[k].physical
    {
      assert BlockStored(v, k);
    }
  }

  lemma FaultKeepsPinned(v: View, bk: KvKey, p: nat)
    requires Placement(v) && bk in v.blk && !v.blk[bk].onGpu && IsFree(v, p)
    ensures KeepsPinned(v, Faulted(v, bk, p))
  {
    assert SlotStored(v, p);
  }

  lemma MadeResidentKeepsPinned(v: View, w: View, bk: KvKey, p: nat)
    requires Placement(v) && MadeResident(v, w, bk, p)
    ensures KeepsPinned(v, w)
  {
    if !v.blk[bk].onGpu {
      var u: View :| Sweeps(v, u) && IsFree(u, p) && Shaped(u) && bk in u.blk && w == Faulted(u, bk, p);
      SweepKeepsPinned(v, u);
      SweptBlockStaysSwapped(v, u, bk);
      SweepKeepsPlacement(v, u);
      FaultKeepsPinned(u, bk, p);
      forall k
        ensures (IsPinned(w, k) <==> IsPinned(v, k)) && (IsPinned(v, k) ==> w.blk[k].physical == v.blk[k].physical)
      {
        assert IsPinned(w, k) <==> IsPinned(u, k);
      }
    }
  }

  lemma PinnedChain(v: View, m: View, w: View, dir: map<KvKey, KvKey>)
    requires KeepsPinned(v, m) && KeepsPinned(m, w)
    ensures KeepsPinned(v, w.(dir := dir))
  {
    var u := w.(dir := dir);
    forall bk
      ensures (IsPinned(u, bk) <==> IsPinned(v, bk)) && (IsPinned(v, bk) ==> u.blk[bk].physical == v.blk[bk].physical)
    {
      assert IsPinned(u, bk) <==> IsPinned(w, bk);
      assert IsPinned(w, bk) <==> IsPinned(m, bk);
    }
  }

  lemma MovedKeepsPinned(v: View, m: View, dk: KvKey, bk: KvKey)
    requires Consistent(v) && Resolved(v, m, bk) && !bk.IsEmpty()
    requires dk in v.dir && bk != v.dir[dk] && !IsPinned(v, v.dir[dk]) && (bk in v.blk || v.blk[v.dir[dk]].refs > 1)
    ensures BlockStored(m, v.dir[dk])
    ensures KeepsPinned(v, Dropped(m, v.dir[dk]).(dir := v.dir[dk := bk]))
  {
    ResolveKeepsLeaver(v, m, dk, bk);
    ResolvedKeepsPinned(v, m, bk);
    DroppedKeepsPinned(m, v.dir[dk]);
    PinnedChain(v, m, Dropped(m, v.dir[dk]), v.dir[dk := bk]);
  }

  lemma InsertedKeepsPinned(v: View, w: View, dk: KvKey, bk: KvKey)
    requires Placement(v) && Inserted(v, w, dk, bk)
    ensures KeepsPinned(v, w)
  {
    var m: View :| Resolved(v, m, bk) && w == m.(dir := v.dir[dk := bk]);
    ResolvedKeepsPinned(v, m, bk);
  }

  lemma PromotedKeepsPinned(v: View, w: View, dk: KvKey, bk: KvKey)
    requires Consistent(v) && dk in v.dir && bk != v.dir[dk] && !bk.IsEmpty()
    requires BlockStored(v, v.dir[dk]) && Promoted(v, w, dk, bk)
    ensures KeepsPinned(v, w)
  {
    var from := v.dir[dk];
    if IsPinned(v, from) {
    } else if bk !in v.blk && v.blk[from].refs == 1 {
      RekeyKeepsPinned(v, from, bk);
    } else {
      assert bk !in v.blk ==> v.blk[from].refs == NameCount(v.dir, from) > 0;
      var m: View :| Resolved(v, m, bk) && BlockStored(m, from) && w == Dropped(m, from).(dir := v.dir[dk := bk]);
      MovedKeepsPinned(v, m, dk, bk);
    }
  }

  // ---- Rebinding one slot --------------------------------------------------

  /** Slot `dk` now names `target`; every pinned block and every other slot placed this epoch is where it was. */
  ghost predicate Rebinds(v: View, w: View, dk: KvKey, target: KvKey) {
    && w.dir == v.dir[dk := target]
    && KeepsPlacedBut(v, w, dk) && KeepsPinned(v, w)
    && w.pins == v.pins && w.epoch == v.epoch && |w.keys| == |v.keys|
  }

  /** Keeping every live block in place keeps a rebinding. */
  lemma RebindsThenLive(v: View, m: View, w: View, dk: KvKey, target: KvKey)
    requires Rebinds(v, m, dk, target) && KeepsLive(m, w, {}) && KeepsPinned(m, w)
    requires w.dir == m.dir && w.pins == m.pins && |w.keys| == |m.keys|
    ensures Rebinds(v, w, dk, target)
  {
    forall k, p: nat | k != dk && Placed(v, k, p) ensures Placed(w, k, p) && w.dir[k] == v.dir[k] {
      assert Placed(m, k, p);
    }
  }

  // ---- Idle states ---------------------------------------------------------

  lemma {:induction false} NoneOccupied(keys: seq<KvKey>)
    ensures Occupied(keys) == 0 <==> forall i :: 0 <= i < |keys| ==> keys[i].IsEmpty()
  {
    if keys != [] {
      var last := |keys| - 1;
      NoneOccupied(keys[..last]);
      assert forall i :: 0 <= i < last ==> keys[..last][i] == keys[i];
    }
  }

  lemma {:induction false} OccupiedIsBounded(keys: seq<KvKey>)
    ensures Occupied(keys) <= |keys|
  {
    if keys != [] {
      OccupiedIsBounded(keys[..|keys| - 1]);
    }
  }

  /** Without bindings there are no blocks, so every backing slot is free and nothing is swapped. */
  lemma UnboundMeansNoBlocks(v: View)
    requires Consistent(v) && v.dir == map[]
    ensures v.blk == map[] && Swapped(v.blk) == {}
    ensures forall x: nat :: x in v.freeList <==> x < v.backingCapacity
  {
    forall bk ensures bk !in v.blk {
      assert Namers(v.dir, bk) == {};
    }
  }

  /** An idle state: nothing bound, nothing occupied, every backing slot free. */
  ghost predicate Idle(v: View) {
    && Shaped(v) && v.dir == map[] && v.blk == map[] && v.freeList == UpTo(v.backingCapacity)
    && forall p :: 0 <= p < |v.keys| ==> v.keys[p].IsEmpty() && v.states[p] == Missing && PinCount(v, p) == 0
  }

  lemma IdleIsConsistent(v: View)
    requires Idle(v)
    ensures Consistent(v) && Occupied(v.keys) == 0 && Swapped(v.blk) == {}
  {
    forall x: nat ensures x in v.freeList <==> x < v.backingCapacity {
      assert x < v.backingCapacity ==> v.freeList[x] == x;
    }
    NoneOccupied(v.keys);
  }

  /** With nothing bound and no slot occupied, only the free list's order can tell a state from an idle one. */
  lemma EmptyIsIdle(v: View, capacity: nat, pins: Option<seq<nat>>)
    requires Consistent(v) && v.dir == map[] && Occupied(v.keys) == 0
    requires pins == v.pins
      || (pins.Some? && |pins.value| == |v.keys| && forall p :: 0 <= p < |v.keys| ==> pins.value[p] == 0)
    ensures Idle(v.(backingCapacity := capacity, freeList := UpTo(capacity), pins := pins))
  {
    UnboundMeansNoBlocks(v);
    NoneOccupied(v.keys);
    forall p | 0 <= p < |v.keys| ensures v.keys[p].IsEmpty() && v.states[p] == Missing && PinCount(v, p) == 0 {
      assert SlotStored(v, p);
    }
  }
}
