/**
 * The key/value block directory of the work-control ring: two open-addressed
 * tables over physical slots, a backing free list, pins and a clock sweep. Every
 * operation, successful or failing, keeps the representations in agreement.
 */
module KvDirectory {
  import opened Arithmetic
  import opened Blocks
  import opened Results
  import opened Sequences
  import opened KvIndex
  import opened KvView
  import opened KvSealed
  import opened KvReadiness
  import opened KvRoom
  import opened KvLanes
  import opened KvDecode
  import opened KvPasses

  datatype Error =
    | InvalidArgument
    | CapacityExceeded
    | NotFound
    | Busy
    | ValidationFailed
    | Internal
    | HookFailed

  type Outcome<T> = Result<T, Error>

  /**
   * The store is full exactly when `can` does not hold; otherwise only a hook may fail, on the way to a claimed slot.
   */
  ghost predicate FullUnless<T>(r: Outcome<T>, can: bool, v: View) {
    && (r.Err? && r.error == CapacityExceeded <==> !can)
    && (r.Err? ==> r.error == CapacityExceeded || (r.error == HookFailed && v.backingCapacity > 0 && HasClaim(v)))
  }

  /** A build fails when the store is full, on a hook of a backing tier, or on a decode of a block that is not ready. */
  ghost predicate MayFail<T>(r: Outcome<T>, p: Packet, backing: nat) {
    r.Err? ==>
      || r.error == CapacityExceeded
      || (r.error == HookFailed && backing > 0)
      || (r.error == Busy && !p.prefill)
  }

  // ---- The intrusive backing free list -------------------------------------

  ghost function LinkAt(free: seq<nat>, i: nat): nat {
    if i < |free| then free[i] else NO_BLOCK
  }

  /** `next` and `head` thread exactly the slots of `free`, in order. */
  ghost predicate Links(next: Option<seq<nat>>, head: nat, capacity: nat, free: seq<nat>) {
    if capacity == 0 then next.None? && free == []
    else
      && next.Some? && |next.value| == capacity < NO_BLOCK
      && head == LinkAt(free, 0)
      && NoRepeats(free)
      && (forall i :: 0 <= i < |free| ==> free[i] < capacity && next.value[free[i]] == LinkAt(free, i + 1))
      && (forall x :: 0 <= x < capacity && x !in free ==> next.value[x] == NO_BLOCK)
  }

  lemma LinksAfterPop(next: seq<nat>, head: nat, capacity: nat, free: seq<nat>)
    requires capacity > 0 && Links(Some(next), head, capacity, free) && free != []
    ensures head == free[0] && head < capacity
    ensures Links(Some(next[head := NO_BLOCK]), next[head], capacity, free[1..])
  {
    var rest := free[1..];
    assert free[0] in free;
    forall i | 0 <= i < |rest|
      ensures rest[i] < capacity && next[head := NO_BLOCK][rest[i]] == LinkAt(rest, i + 1)
    {
      assert rest[i] == free[i + 1];
    }
    forall x | 0 <= x < capacity && x !in rest ensures next[head := NO_BLOCK][x] == NO_BLOCK {
      assert x in free ==> x == free[0];
    }
  }

  lemma LinksAfterPush(next: seq<nat>, head: nat, capacity: nat, free: seq<nat>, x: nat)
    requires capacity > 0 && Links(Some(next), head, capacity, free) && x < capacity && x !in free
    ensures next[x] == NO_BLOCK
    ensures Links(Some(next[x := head]), x, capacity, [x] + free)
  {
    var longer := [x] + free;
    forall i | 0 <= i < |longer|
      ensures longer[i] < capacity && next[x := head][longer[i]] == LinkAt(longer, i + 1)
    {
      if i > 0 {
        assert longer[i] == free[i - 1];
      }
    }
  }

  // ---- The coupled representations -----------------------------------------

  /** Sizes fixed at creation, and the key mixing function. */
  datatype Geometry = Geometry(
    mix: Mixer,
    laneCapacity: nat,
    laneStride: nat,
    blockTokenCount: nat,
    physicalCapacity: nat,
    directoryCapacity: nat,
    blockEntryCapacity: nat)

  predicate GeometryOk(g: Geometry) {
    && 0 < g.laneCapacity && 0 < g.laneStride <= 0xFFFF_FFFF && 0 < g.blockTokenCount
    && 0 < g.physicalCapacity <= 0x7FFF_FFFF
    && 2 * g.physicalCapacity <= g.directoryCapacity < SATURATED
    && 2 * g.physicalCapacity <= g.blockEntryCapacity < SATURATED
  }

  /** The tables, the physical slots, the backing list and the four counters, which every operation keeps in step. */
  datatype Core = Core(
    directory: seq<Slot<KvKey>>,
    blocks: seq<Slot<Block>>,
    keys: seq<KvKey>,
    states: seq<EntryState>,
    lastUsed: seq<nat>,
    pins: Option<seq<nat>>,
    epoch: nat,
    backingCapacity: nat,
    freeNext: Option<seq<nat>>,
    freeHead: nat,
    directoryCount: nat,
    blockCount: nat,
    swappedCount: nat,
    allocatedCount: nat,
    gpu: Tier,
    disk: Tier)

  /** The abstract state; `free` is the backing free list in link order. */
  ghost function Abs(c: Core, free: seq<nat>): View {
    View(Contents(c.directory), Contents(c.blocks), c.keys, c.states, c.lastUsed, c.pins, c.epoch, c.backingCapacity,
         free, c.gpu, c.disk)
  }

  function LimitOf(g: Geometry, backing: nat): nat {
    if backing != 0 then backing else g.physicalCapacity
  }

  /** How many blocks may exist. */
  function BlockLimit(g: Geometry, c: Core): nat {
    LimitOf(g, c.backingCapacity)
  }

  ghost function RoomSeal(g: Geometry, v: View, n: nat, depth: nat): nat {
    if depth > 0 then RoomSeal(g, v, n, depth - 1)
    else if HasRoom(v, n, Half(g.directoryCapacity), LimitOf(g, v.backingCapacity)) then 1 else 0
  }

  /** Room for `n` more cells, whatever they ask for. Sealed behind a recursion the verifier does not unroll. */
  ghost predicate Roomy(g: Geometry, v: View, n: nat) {
    RoomSeal(g, v, n, v.epoch + 2) == 1
  }

  lemma {:induction false} UnsealRoom(g: Geometry, v: View, n: nat, depth: nat)
    ensures RoomSeal(g, v, n, depth) == 1 <==> HasRoom(v, n, Half(g.directoryCapacity), LimitOf(g, v.backingCapacity))
  {
    if depth > 0 {
      UnsealRoom(g, v, n, depth - 1);
    }
  }

  lemma OpenRoomy(g: Geometry, v: View, n: nat)
    ensures Roomy(g, v, n) <==> HasRoom(v, n, Half(g.directoryCapacity), LimitOf(g, v.backingCapacity))
  {
    UnsealRoom(g, v, n, v.epoch + 2);
  }

  /** Room for `all` cells before is room for the `rest` of them after. */
  ghost predicate KeepsRoom(g: Geometry, v: View, w: View, all: nat, rest: nat) {
    Roomy(g, v, all) ==> Roomy(g, w, rest)
  }

  /** With room for a cell it is not refused, and room for the rest remains. */
  lemma CellKeepsRoom(g: Geometry, r: Outcome<nat>, u: View, v: View, w: View, dk: KvKey, bk: KvKey, all: nat,
                      rest: nat)
    requires KeepsRoom(g, u, v, all, rest + 1) && w.backingCapacity == v.backingCapacity
    requires r == Err(CapacityExceeded) <==>
      !CanAcquire(v, dk, bk, Half(g.directoryCapacity), LimitOf(g, v.backingCapacity))
    requires r.Ok? ==> Spends(v, w, Target(v, dk, bk)) && Rebinds(v, w, dk, Target(v, dk, bk))
    ensures r.Ok? ==> KeepsRoom(g, u, w, all, rest)
    ensures r == Err(CapacityExceeded) ==> !Roomy(g, u, all)
  {
    OpenRoomy(g, v, rest + 1);
    OpenRoomy(g, w, rest);
    if Roomy(g, v, rest + 1) {
      RoomStep(v, w, rest, dk, bk, Half(g.directoryCapacity), LimitOf(g, v.backingCapacity), r.Ok?);
    }
  }

  /** What a build carries from cell to cell: room for the cells left, and that every cell is warm. */
  ghost predicate Carries(g: Geometry, s: Sharing, p: Packet, v: View, w: View, all: nat, rest: nat) {
    KeepsRoom(g, v, w, all, rest) && KeepsWarm(g.mix, s, p, v, w)
  }

  /** A full store had no room for all cells, and a busy block was not warm. */
  ghost predicate Excused<T>(r: Outcome<T>, g: Geometry, s: Sharing, p: Packet, v: View, all: nat) {
    && (r.Err? && r.error == CapacityExceeded ==> !Roomy(g, v, all))
    && (r.Err? && r.error == Busy ==> !Warm(g.mix, s, p, v))
  }

  /** The directory is well-formed, half loaded and exactly counted. */
  ghost predicate DirectoryOk(g: Geometry, c: Core) {
    && WellFormed(c.directory) && |c.directory| == g.directoryCapacity
    && c.directoryCount == |Contents(c.directory)| <= Half(g.directoryCapacity)
  }

  /** The block table is well-formed, within its limit and exactly counted. */
  ghost predicate BlocksOk(g: Geometry, c: Core) {
    && WellFormed(c.blocks) && |c.blocks| == g.blockEntryCapacity
    && c.blockCount == |Contents(c.blocks)| <= BlockLimit(g, c)
    && (c.blockCount > 0 ==> c.backingCapacity <= Half(g.blockEntryCapacity))
  }

  /** The swapped and allocated counters are exact. */
  ghost predicate CountersOk(g: Geometry, c: Core) {
    && c.swappedCount == |Swapped(Contents(c.blocks))|
    && c.allocatedCount == Occupied(c.keys)
    && |c.keys| == g.physicalCapacity
  }

  /** Everything about blocks and physical slots but the backing store. */
  ghost predicate Based(g: Geometry, c: Core, free: seq<nat>) {
    BlocksOk(g, c) && CountersOk(g, c) && Sited(Abs(c, free))
  }

  /** All representations agree, but for the share counts. */
  ghost predicate InStorage(g: Geometry, c: Core, free: seq<nat>) {
    && BlocksOk(g, c) && CountersOk(g, c)
    && Links(c.freeNext, c.freeHead, c.backingCapacity, free)
    && Intact(Abs(c, free))
  }

  /** Sealed `InStorage`, as `KvSealed` does for the view. */
  ghost function CoreSeal(g: Geometry, c: Core, free: seq<nat>, n: nat): nat {
    if n > 0 then CoreSeal(g, c, free, n - 1) else if InStorage(g, c, free) then 1 else 0
  }

  ghost predicate Stored(g: Geometry, c: Core, free: seq<nat>) {
    CoreSeal(g, c, free, |c.keys| + 2) == 1
  }

  lemma {:induction false} UnsealCore(g: Geometry, c: Core, free: seq<nat>, n: nat)
    ensures CoreSeal(g, c, free, n) == 1 <==> InStorage(g, c, free)
  {
    if n > 0 {
      UnsealCore(g, c, free, n - 1);
    }
  }

  lemma OpenStored(g: Geometry, c: Core, free: seq<nat>)
    ensures Stored(g, c, free) <==> InStorage(g, c, free)
  {
    UnsealCore(g, c, free, |c.keys| + 2);
  }

  lemma StoredIsBased(g: Geometry, c: Core, free: seq<nat>)
    requires Stored(g, c, free)
    ensures Based(g, c, free) && Shaped(Abs(c, free)) && Links(c.freeNext, c.freeHead, c.backingCapacity, free)
    ensures Intact(Abs(c, free))
  {
    OpenStored(g, c, free);
    IntactIsSited(Abs(c, free));
  }

  /** All representations agree. */
  ghost predicate Agrees(g: Geometry, c: Core, free: seq<nat>) {
    DirectoryOk(g, c) && Stored(g, c, free) && Coherent(Abs(c, free))
  }

  /** Only block records, physical slots and their two counters differ. */
  ghost predicate OnlySlotsChange(c: Core, d: Core) {
    && SameLayout(c.blocks, d.blocks)
    && d == c.(blocks := d.blocks, keys := d.keys, states := d.states, lastUsed := d.lastUsed,
               swappedCount := d.swappedCount, allocatedCount := d.allocatedCount, disk := d.disk)
  }

  /** Only the backing list differs, besides what `OnlySlotsChange` allows and the block count. */
  ghost predicate DirectoryKept(c: Core, d: Core) {
    && d.directory == c.directory && d.directoryCount == c.directoryCount
    && d.epoch == c.epoch && d.pins == c.pins && d.backingCapacity == c.backingCapacity
  }

  /** Record a new block and give it its physical slot. */
  function WithNewBlock(c: Core, slot: nat, bk: KvKey, record: Block): Core
    requires slot < |c.blocks| && record.physical < |c.keys| == |c.states| == |c.lastUsed|
  {
    c.(blocks := c.blocks[slot := Held(bk, record)], blockCount := c.blockCount + 1,
       keys := c.keys[record.physical := bk], lastUsed := c.lastUsed[record.physical := c.epoch],
       states := c.states[record.physical := Missing], allocatedCount := c.allocatedCount + 1)
  }

  lemma NewBlockIsStored(g: Geometry, v: View, c: Core, free: seq<nat>, slot: nat, bk: KvKey, p: nat)
    requires Intact(v) && (v.backingCapacity > 0 ==> v.freeList != [])
    requires Based(g, c, free) && Shaped(Abs(c, free)) && Links(c.freeNext, c.freeHead, c.backingCapacity, free)
    requires Sweeps(v.(freeList := Rest(v)), Abs(c, free)) && IsFree(Abs(c, free), p)
    requires !bk.IsEmpty() && bk !in v.blk && bk !in Contents(c.blocks) && InsertionPoint(c.blocks, bk, slot)
    requires c.backingCapacity <= Half(g.blockEntryCapacity) && c.blockCount < BlockLimit(g, c)
    ensures var d := WithNewBlock(c, slot, bk, Block(p, NextBacking(v), 1, true, false, 0));
      Stored(g, d, free) && Resolved(v, Abs(d, free), bk)
  {
    var u := Abs(c, free);
    var record := Block(p, NextBacking(v), 1, true, false, 0);
    var d := WithNewBlock(c, slot, bk, record);
    InsertRefines(c.blocks, bk, record, slot);
    AdmitKeepsIntact(v, u, bk, p);
    assert Abs(d, free) == Admitted(u, bk, p, NextBacking(v));
    OpenStored(g, d, free);
  }

  /** Replace the record in `slot`. */
  function WithRecord(c: Core, slot: nat, record: Block): Core
    requires slot < |c.blocks| && c.blocks[slot].Held?
  {
    c.(blocks := c.blocks[slot := Held(c.blocks[slot].key, record)])
  }

  /** A record that stays where it is may change its count, mark and, on the GPU, its backing state. */
  lemma RecordIsStored(g: Geometry, c: Core, free: seq<nat>, slot: nat, record: Block)
    requires Stored(g, c, free) && slot < |c.blocks| && c.blocks[slot].Held?
    requires var b := c.blocks[slot].value;
      && record.physical == b.physical && record.onGpu == b.onGpu && record.backing == b.backing
      && (b.onGpu || record.backingValid == b.backingValid)
    ensures Stored(g, WithRecord(c, slot, record), free)
    ensures c.blocks[slot].key in Contents(c.blocks) && Contents(c.blocks)[c.blocks[slot].key] == c.blocks[slot].value
    ensures Abs(WithRecord(c, slot, record), free)
            == Abs(c, free).(blk := Contents(c.blocks)[c.blocks[slot].key := record])
  {
    var v, d, key := Abs(c, free), WithRecord(c, slot, record), c.blocks[slot].key;
    OpenStored(g, c, free);
    UpdateRefines(c.blocks, slot, record);
    UpdateKeepsIntact(v, key, record);
    assert Abs(d, free) == v.(blk := v.blk[key := record]);
    OpenStored(g, d, free);
  }

  /** Drop a block's record, leaving table `t`, and give up its physical slot. */
  function WithoutBlock(c: Core, b: Block, t: seq<Slot<Block>>): Core
    requires b.onGpu ==> b.physical < |c.keys| == |c.states| == |c.lastUsed|
    requires c.blockCount > 0 && if b.onGpu then c.allocatedCount > 0 else c.swappedCount > 0
  {
    var d := c.(blocks := t, blockCount := c.blockCount - 1);
    if b.onGpu then
      d.(keys := c.keys[b.physical := EMPTY_KEY], lastUsed := c.lastUsed[b.physical := 0],
         states := c.states[b.physical := Missing], allocatedCount := c.allocatedCount - 1)
    else d.(swappedCount := c.swappedCount - 1)
  }

  lemma BlockIsCounted(g: Geometry, c: Core, free: seq<nat>, bk: KvKey)
    requires GeometryOk(g) && Based(g, c, free) && bk in Contents(c.blocks)
    ensures c.blockCount > 0 && |Contents(c.blocks)| < |c.blocks|
    ensures BlockStored(Abs(c, free), bk)
    ensures var b := Contents(c.blocks)[bk]; if b.onGpu then c.allocatedCount > 0 else c.swappedCount > 0
  {
    SitedBlock(Abs(c, free), bk);
  }

  /** Dropping a block's record, once its backing slot is back on the list. */
  lemma FreedIsStored(g: Geometry, c: Core, free: seq<nat>, d: Core, after: seq<nat>, bk: KvKey, t: seq<Slot<Block>>)
    requires GeometryOk(g) && Stored(g, c, free) && BlockStored(Abs(c, free), bk) && !IsPinned(Abs(c, free), bk)
    requires d == c.(freeNext := d.freeNext, freeHead := d.freeHead) && after == Freed(Abs(c, free), bk).freeList
    requires WellFormed(t) && |t| == |c.blocks| && Contents(t) == Contents(c.blocks) - {bk}
    requires Links(d.freeNext, d.freeHead, d.backingCapacity, after)
    requires c.blockCount > 0 && if Contents(c.blocks)[bk].onGpu then c.allocatedCount > 0 else c.swappedCount > 0
    ensures var e := WithoutBlock(d, Contents(c.blocks)[bk], t);
      Stored(g, e, after) && Abs(e, after) == Freed(Abs(c, free), bk)
  {
    var e := WithoutBlock(d, Contents(c.blocks)[bk], t);
    OpenStored(g, c, free);
    FreeKeepsIntact(Abs(c, free), bk);
    assert Abs(e, after) == Freed(Abs(c, free), bk);
    OpenStored(g, e, after);
  }

  /** Keep block `b` under key `bk`, in table `t`. */
  function WithNewKey(c: Core, b: Block, bk: KvKey, t: seq<Slot<Block>>): Core
    requires b.onGpu ==> b.physical < |c.keys|
  {
    c.(blocks := t, keys := if b.onGpu then c.keys[b.physical := bk] else c.keys)
  }

  lemma RekeyedIsStored(g: Geometry, c: Core, free: seq<nat>, from: KvKey, bk: KvKey, t: seq<Slot<Block>>)
    requires Stored(g, c, free) && BlockStored(Abs(c, free), from) && bk !in Contents(c.blocks) && !bk.IsEmpty()
    requires WellFormed(t) && |t| == |c.blocks|
    requires Contents(t) == (Contents(c.blocks) - {from})[bk := Contents(c.blocks)[from]]
    ensures var d := WithNewKey(c, Contents(c.blocks)[from], bk, t);
      Stored(g, d, free) && Abs(d, free) == Rekeyed(Abs(c, free), from, bk)
  {
    var v, d := Abs(c, free), WithNewKey(c, Contents(c.blocks)[from], bk, t);
    OpenStored(g, c, free);
    RekeyKeepsIntact(v, from, bk);
    assert Abs(d, free) == Rekeyed(v, from, bk);
    OpenStored(g, d, free);
  }

  /** Put the swapped block in `slot` into physical slot `p`. */
  function WithResident(c: Core, slot: nat, p: nat): Core
    requires slot < |c.blocks| && c.blocks[slot].Held? && p < |c.keys| == |c.states| == |c.lastUsed|
    requires c.swappedCount > 0
  {
    var key, b := c.blocks[slot].key, c.blocks[slot].value;
    c.(blocks := c.blocks[slot := Held(key, b.(physical := p, onGpu := true))], swappedCount := c.swappedCount - 1,
       keys := c.keys[p := key], lastUsed := c.lastUsed[p := c.epoch], states := c.states[p := Resident],
       allocatedCount := c.allocatedCount + 1, gpu := c.gpu[p := At(c.disk, b.backing)])
  }

  lemma FaultedIsStored(g: Geometry, v: View, c: Core, free: seq<nat>, slot: nat, p: nat)
    requires Intact(v) && Stored(g, c, free) && Sweeps(v, Abs(c, free)) && IsFree(Abs(c, free), p)
    requires slot < |c.blocks| && c.blocks[slot].Held? && c.blocks[slot].key in v.blk
    requires !v.blk[c.blocks[slot].key].onGpu
    ensures p < |c.keys| == |c.states| == |c.lastUsed| && c.swappedCount > 0
    ensures var d := WithResident(c, slot, p);
      Stored(g, d, free) && MadeResident(v, Abs(d, free), c.blocks[slot].key, p)
  {
    var u, bk := Abs(c, free), c.blocks[slot].key;
    StoredIsBased(g, c, free);
    OpenStored(g, c, free);
    UpdateRefines(c.blocks, slot, c.blocks[slot].value.(physical := p, onGpu := true));
    FaultKeepsIntact(v, u, bk, p);
    assert Abs(WithResident(c, slot, p), free) == Faulted(u, bk, p);
    OpenStored(g, WithResident(c, slot, p), free);
  }

  /** Changing slot states, uses, pins, the epoch or data, but no place, keeps everything stored. */
  lemma SlotsAreStored(g: Geometry, c: Core, d: Core, free: seq<nat>)
    requires Stored(g, c, free)
    requires d == c.(states := d.states, lastUsed := d.lastUsed, pins := d.pins, epoch := d.epoch, gpu := d.gpu)
    requires SamePlaces(Abs(c, free), Abs(d, free))
    ensures Stored(g, d, free)
  {
    OpenStored(g, c, free);
    SamePlacesKeepIntact(Abs(c, free), Abs(d, free));
    OpenStored(g, d, free);
  }

  /** Rethreading the same free list keeps everything stored. */
  lemma RelinkedIsStored(g: Geometry, c: Core, d: Core, free: seq<nat>)
    requires Stored(g, c, free) && d == c.(freeNext := d.freeNext, freeHead := d.freeHead)
    requires Links(d.freeNext, d.freeHead, d.backingCapacity, free)
    ensures Stored(g, d, free) && Abs(d, free) == Abs(c, free)
  {
    OpenStored(g, c, free);
    OpenStored(g, d, free);
  }

  // ---- Directory slots -----------------------------------------------------

  /** Bind the vacant directory slot `slot` to a block. */
  function WithBinding(c: Core, slot: nat, dk: KvKey, bk: KvKey): Core
    requires slot < |c.directory|
  {
    c.(directory := c.directory[slot := Held(dk, bk)], directoryCount := c.directoryCount + 1)
  }

  lemma BindingIsStored(g: Geometry, c: Core, free: seq<nat>, slot: nat, dk: KvKey, bk: KvKey)
    requires DirectoryOk(g, c) && Stored(g, c, free) && c.directoryCount < Half(g.directoryCapacity)
    requires !dk.IsEmpty() && dk !in Contents(c.directory) && InsertionPoint(c.directory, dk, slot)
    ensures var d := WithBinding(c, slot, dk, bk);
      DirectoryOk(g, d) && Stored(g, d, free) && Abs(d, free) == Abs(c, free).(dir := Contents(c.directory)[dk := bk])
  {
    var v, d := Abs(c, free), WithBinding(c, slot, dk, bk);
    OpenStored(g, c, free);
    InsertRefines(c.directory, dk, bk, slot);
    SizeAfterInsert(v.dir, dk, bk);
    IntactIgnoresDirectory(v, v.dir[dk := bk]);
    assert Abs(d, free) == v.(dir := v.dir[dk := bk]);
    OpenStored(g, d, free);
  }

  /** Point the directory slot `slot` at another block. */
  function WithTarget(c: Core, slot: nat, bk: KvKey): Core
    requires slot < |c.directory| && c.directory[slot].Held?
  {
    c.(directory := c.directory[slot := Held(c.directory[slot].key, bk)])
  }

  lemma TargetIsStored(g: Geometry, c: Core, free: seq<nat>, slot: nat, bk: KvKey)
    requires DirectoryOk(g, c) && Stored(g, c, free) && slot < |c.directory| && c.directory[slot].Held?
    ensures var d := WithTarget(c, slot, bk);
      DirectoryOk(g, d) && Stored(g, d, free)
      && Abs(d, free) == Abs(c, free).(dir := Contents(c.directory)[c.directory[slot].key := bk])
  {
    var v, d, dk := Abs(c, free), WithTarget(c, slot, bk), c.directory[slot].key;
    OpenStored(g, c, free);
    UpdateRefines(c.directory, slot, bk);
    SizeAfterInsert(v.dir, dk, bk);
    IntactIgnoresDirectory(v, v.dir[dk := bk]);
    assert Abs(d, free) == v.(dir := v.dir[dk := bk]);
    OpenStored(g, d, free);
  }

  /** Unbind a directory slot, leaving table `t`. */
  function WithoutBinding(c: Core, t: seq<Slot<KvKey>>): Core
    requires c.directoryCount > 0
  {
    c.(directory := t, directoryCount := c.directoryCount - 1)
  }

  lemma UnbindingIsStored(g: Geometry, c: Core, free: seq<nat>, dk: KvKey, t: seq<Slot<KvKey>>)
    requires DirectoryOk(g, c) && Stored(g, c, free) && dk in Contents(c.directory)
    requires WellFormed(t) && |t| == |c.directory| && Contents(t) == Contents(c.directory) - {dk}
    ensures c.directoryCount > 0
    ensures var d := WithoutBinding(c, t);
      DirectoryOk(g, d) && Stored(g, d, free) && Abs(d, free) == Abs(c, free).(dir := Contents(c.directory) - {dk})
  {
    var v, d := Abs(c, free), WithoutBinding(c, t);
    OpenStored(g, c, free);
    SizeAfterRemove(v.dir, dk);
    IntactIgnoresDirectory(v, v.dir - {dk});
    assert Abs(d, free) == v.(dir := v.dir - {dk});
    OpenStored(g, d, free);
  }

  // ---- Idle states ---------------------------------------------------------

  lemma FreshLinks(next: seq<nat>, capacity: nat)
    requires 0 < |next| == capacity < NO_BLOCK
    requires forall i :: 0 <= i < capacity ==> next[i] == if i + 1 < capacity then i + 1 else NO_BLOCK
    ensures Links(Some(next), 0, capacity, UpTo(capacity))
  {
    var free := UpTo(capacity);
    forall x | 0 <= x < capacity ensures x in free {
      assert free[x] == x;
    }
  }

  /** Nothing bound, nothing resident. */
  function IdleCore(g: Geometry, capacity: nat, pins: Option<seq<nat>>, next: Option<seq<nat>>): Core {
    Core(seq(g.directoryCapacity, _ => Vacant), seq(g.blockEntryCapacity, _ => Vacant),
         seq(g.physicalCapacity, _ => EMPTY_KEY), seq(g.physicalCapacity, _ => Missing),
         seq(g.physicalCapacity, _ => 0), pins, 0, capacity, next, if capacity == 0 then NO_BLOCK else 0, 0, 0, 0, 0,
         map[], map[])
  }

  lemma IdleCoreAgrees(g: Geometry, capacity: nat, pins: Option<seq<nat>>, next: Option<seq<nat>>)
    requires GeometryOk(g)
    requires pins.Some? ==> |pins.value| == g.physicalCapacity && forall p :: 0 <= p < g.physicalCapacity ==>
      pins.value[p] == 0
    requires Links(next, if capacity == 0 then NO_BLOCK else 0, capacity, UpTo(capacity))
    ensures var c := IdleCore(g, capacity, pins, next);
      Agrees(g, c, UpTo(capacity)) && Idle(Abs(c, UpTo(capacity)))
  {
    var c := IdleCore(g, capacity, pins, next);
    VacantTableIsEmpty(c.directory);
    VacantTableIsEmpty(c.blocks);
    IdleIsCoherent(Abs(c, UpTo(capacity)));
    OpenStored(g, c, UpTo(capacity));
  }

  /** Once no slot is bound nothing is held: no block, nothing swapped, every backing slot free. */
  lemma NothingLeaks(g: Geometry, c: Core, free: seq<nat>)
    requires Agrees(g, c, free) && Contents(c.directory) == map[]
    ensures Contents(c.blocks) == map[] && c.blockCount == 0 && c.swappedCount == 0
    ensures forall x: nat :: x in free <==> x < c.backingCapacity
  {
    OpenCoherent(Abs(c, free));
    UnboundMeansNoBlocks(Abs(c, free));
    StoredIsBased(g, c, free);
  }

  /** No counter exceeds its capacity. */
  lemma CountersAreBounded(g: Geometry, c: Core, free: seq<nat>)
    requires GeometryOk(g) && Agrees(g, c, free)
    ensures c.allocatedCount <= g.physicalCapacity && c.swappedCount <= c.blockCount <= BlockLimit(g, c)
    ensures c.directoryCount <= Half(g.directoryCapacity) && (c.backingCapacity == 0 <==> c.freeNext.None?)
  {
    StoredIsBased(g, c, free);
    OccupiedIsBounded(c.keys);
    SubsetIsSmaller(Swapped(Contents(c.blocks)), Contents(c.blocks).Keys);
  }

  // ---- The block table -----------------------------------------------------

  /** The block table, its lane counts, the published keys and the packet-level counters. */
  datatype Table = Table(
    cells: seq<nat>,
    counts: seq<nat>,
    sharing: Sharing,
    generation: nat,
    missing: nat,
    inFlight: nat,
    resident: nat,
    prefetchGeneration: nat)

  /** The table after a block in state `s` is counted. */
  function Counted(t: Table, s: EntryState): Table {
    match s
    case Resident => t.(resident := t.resident + 1)
    case InFlight => t.(inFlight := t.inFlight + 1)
    case _ => t.(missing := t.missing + 1)
  }

  ghost predicate TableOk(g: Geometry, t: Table) {
    |t.cells| == g.laneCapacity * g.laneStride && |t.counts| == g.laneCapacity
  }

  /** Every cell before `(lane, block)` is finished, and the blocks in flight are counted. */
  ghost predicate CellsDone(g: Geometry, p: Packet, t: Table, v: View, lane: nat, block: nat)
    requires lane <= |p.lanes| && (block > 0 ==> lane < |p.lanes|)
  {
    SlotsDistinct(g.mix, p) ==>
      && FilledUpTo((g.mix, g.laneStride), t.sharing, p, t.cells, v, lane, block)
      && t.inFlight == InFlightCells(g.mix, p, v, lane, block)
  }

  /** The first `n` lanes of a packet are in the table: every cell is finished, and all blocks are counted ready. */
  ghost predicate Built(g: Geometry, p: Packet, t: Table, v: View, n: nat) {
    && n <= |p.lanes| && n <= |t.counts| && LanesFit(p, n)
    && (forall l :: 0 <= l < n ==> t.counts[l] == LaneBlocks(p, l))
    && CellsDone(g, p, t, v, n, 0)
    && t.missing == 0 && t.inFlight + t.resident == TotalBlocks(p, n)
  }

  ghost function BuiltSeal(g: Geometry, p: Packet, t: Table, v: View, n: nat, depth: nat): nat {
    if depth > 0 then BuiltSeal(g, p, t, v, n, depth - 1) else if Built(g, p, t, v, n) then 1 else 0
  }

  /** `Built`, sealed behind a recursion the verifier does not unroll. */
  ghost predicate Building(g: Geometry, p: Packet, t: Table, v: View, n: nat) {
    BuiltSeal(g, p, t, v, n, n + 2) == 1
  }

  lemma {:induction false} UnsealBuilt(g: Geometry, p: Packet, t: Table, v: View, n: nat, depth: nat)
    ensures BuiltSeal(g, p, t, v, n, depth) == 1 <==> Built(g, p, t, v, n)
  {
    if depth > 0 {
      UnsealBuilt(g, p, t, v, n, depth - 1);
    }
  }

  lemma OpenBuilding(g: Geometry, p: Packet, t: Table, v: View, n: nat)
    ensures Building(g, p, t, v, n) <==> Built(g, p, t, v, n)
  {
    UnsealBuilt(g, p, t, v, n, n + 2);
  }

  lemma LaneIsBuilt(g: Geometry, p: Packet, t: Table, u: Table, v: View, w: View, lane: nat)
    requires lane < |p.lanes| && lane < |t.counts| && Built(g, p, t, v, lane) && LanesFit(p, lane + 1)
    requires u.counts == t.counts[lane := LaneBlocks(p, lane)] && u.sharing == t.sharing && u.missing == t.missing
    requires CellsDone(g, p, u, w, lane, LaneBlocks(p, lane))
    requires u.inFlight + u.resident == t.inFlight + t.resident + LaneBlocks(p, lane)
    ensures Building(g, p, u, w, lane + 1)
  {
    assert CellsDone(g, p, u, w, lane + 1, 0);
    assert TotalBlocks(p, lane + 1) == TotalBlocks(p, lane) + LaneBlocks(p, lane);
    OpenBuilding(g, p, u, w, lane + 1);
  }

  /** A generation that is refused as old is reported as not found. */
  function SelectionError(e: Error): Error {
    if e == ValidationFailed then NotFound else e
  }

  /** A packet the state accepts: well formed, of the right shape, with the backing store within half load. */
  ghost predicate Accepts(g: Geometry, backing: nat, p: Packet) {
    && backing <= Half(g.blockEntryCapacity) && PacketOk(p)
    && p.blockTokens == g.blockTokenCount && p.maxBlocks <= g.laneStride && p.active <= g.laneCapacity
  }

  /** The first `n` packets are accepted. */
  ghost predicate AcceptsAll(g: Geometry, backing: nat, packets: seq<Packet>, n: nat)
    requires n <= |packets|
  {
    n == 0 || (AcceptsAll(g, backing, packets, n - 1) && Accepts(g, backing, packets[n - 1]))
  }

  lemma {:induction false} AcceptsAllButOne(g: Geometry, backing: nat, packets: seq<Packet>, n: nat, i: nat)
    requires i < n <= |packets|
    ensures !Accepts(g, backing, packets[i]) ==> !AcceptsAll(g, backing, packets, n)
  {
    if i < n - 1 {
      AcceptsAllButOne(g, backing, packets, n - 1, i);
    }
  }

  /**
   * Room for every cell of a packet: in the next epoch of the state, or, when a new generation forgets the state,
   * in an empty store.
   */
  ghost predicate RoomToBuild(g: Geometry, v: View, kept: bool, p: Packet)
    requires p.active <= |p.lanes|
  {
    && LanesFit(p, p.active)
    && var n := TotalBlocks(p, p.active);
       if kept then Roomy(g, v.(epoch := NextEpoch(v.epoch)), n)
       else n <= g.physicalCapacity && n <= LimitOf(g, v.backingCapacity)
  }

  /** The state a build starts from has the room, and the packet is admitted. */
  lemma RoomAtStart(g: Geometry, c: Core, free: seq<nat>, v: View, kept: bool, s: Sharing, p: Packet)
    requires GeometryOk(g) && Agrees(g, c, free) && p.active <= |p.lanes| && RoomToBuild(g, v, kept, p)
    requires c.backingCapacity == v.backingCapacity && if kept then v == Abs(c, free) else Idle(Abs(c, free))
    ensures var m := Abs(c, free);
      && Roomy(g, m.(epoch := NextEpoch(m.epoch)), TotalBlocks(p, p.active))
      && Fits(m, g.mix, s, p, Half(g.directoryCapacity), g.physicalCapacity)
  {
    var m, n := Abs(c, free), TotalBlocks(p, p.active);
    var w := m.(epoch := NextEpoch(m.epoch));
    StoredIsBased(g, c, free);
    OpenRoomy(g, w, n);
    if !kept {
      IdleIsRoomy(m, w.epoch, n, Half(g.directoryCapacity), LimitOf(g, m.backingCapacity));
    }
    ClaimsAreSlots(w);
  }

  ghost predicate IsHale(g: Geometry, c: Core, free: seq<nat>, next: nat, t: Table) {
    GeometryOk(g) && Agrees(g, c, free) && next < g.physicalCapacity && TableOk(g, t)
  }

  ghost function HaleSeal(g: Geometry, c: Core, free: seq<nat>, next: nat, t: Table, depth: nat): nat {
    if depth > 0 then HaleSeal(g, c, free, next, t, depth - 1) else if IsHale(g, c, free, next, t) then 1 else 0
  }

  /** A valid state, sealed behind a recursion the verifier does not unroll. */
  ghost predicate Hale(g: Geometry, c: Core, free: seq<nat>, next: nat, t: Table) {
    HaleSeal(g, c, free, next, t, next + 2) == 1
  }

  lemma {:induction false} UnsealHale(g: Geometry, c: Core, free: seq<nat>, next: nat, t: Table, depth: nat)
    ensures HaleSeal(g, c, free, next, t, depth) == 1 <==> IsHale(g, c, free, next, t)
  {
    if depth > 0 {
      UnsealHale(g, c, free, next, t, depth - 1);
    }
  }

  lemma OpenHale(g: Geometry, c: Core, free: seq<nat>, next: nat, t: Table)
    ensures Hale(g, c, free, next, t) <==> IsHale(g, c, free, next, t)
  {
    UnsealHale(g, c, free, next, t, next + 2);
  }

  /** What a build relies on: a valid state whose backing store is within half load of the block table. */
  ghost predicate MayBuild(g: Geometry, c: Core, free: seq<nat>, next: nat, t: Table) {
    && GeometryOk(g) && Agrees(g, c, free) && next < g.physicalCapacity && TableOk(g, t)
    && c.backingCapacity <= Half(g.blockEntryCapacity)
  }

  ghost function MayBuildSeal(g: Geometry, c: Core, free: seq<nat>, next: nat, t: Table, depth: nat): nat {
    if depth > 0 then MayBuildSeal(g, c, free, next, t, depth - 1) else if MayBuild(g, c, free, next, t) then 1 else 0
  }

  /** `MayBuild`, sealed behind a recursion the verifier does not unroll. */
  ghost predicate Buildable(g: Geometry, c: Core, free: seq<nat>, next: nat, t: Table) {
    MayBuildSeal(g, c, free, next, t, next + 2) == 1
  }

  lemma {:induction false} UnsealBuildable(g: Geometry, c: Core, free: seq<nat>, next: nat, t: Table, depth: nat)
    ensures MayBuildSeal(g, c, free, next, t, depth) == 1 <==> MayBuild(g, c, free, next, t)
  {
    if depth > 0 {
      UnsealBuildable(g, c, free, next, t, depth - 1);
    }
  }

  lemma OpenBuildable(g: Geometry, c: Core, free: seq<nat>, next: nat, t: Table)
    ensures Buildable(g, c, free, next, t) <==> MayBuild(g, c, free, next, t)
  {
    UnsealBuildable(g, c, free, next, t, next + 2);
  }

  /** From table `t` and state `u`, the first `block` cells of a lane are filled: what `s` and `v` are then. */
  ghost predicate LaneFilled(g: Geometry, p: Packet, t: Table, s: Table, u: View, v: View, lane: nat, block: nat) {
    && lane < |p.lanes|
    && s == t.(cells := s.cells, missing := t.missing, inFlight := s.inFlight, resident := s.resident)
    && SamePins(u, v) && LaneFollows(g.mix, t.sharing, p, u, v, lane, block)
    && CellsDone(g, p, s, v, lane, block) && s.inFlight + s.resident == t.inFlight + t.resident + block
  }

  ghost function LaneFilledSeal(g: Geometry, p: Packet, t: Table, s: Table, u: View, v: View, lane: nat, block: nat,
                                depth: nat): nat
  {
    if depth > 0 then LaneFilledSeal(g, p, t, s, u, v, lane, block, depth - 1)
    else if LaneFilled(g, p, t, s, u, v, lane, block) then 1 else 0
  }

  /** `LaneFilled`, sealed behind a recursion the verifier does not unroll. */
  ghost predicate Filling(g: Geometry, p: Packet, t: Table, s: Table, u: View, v: View, lane: nat, block: nat) {
    LaneFilledSeal(g, p, t, s, u, v, lane, block, block + 2) == 1
  }

  lemma {:induction false} UnsealFilling(g: Geometry, p: Packet, t: Table, s: Table, u: View, v: View, lane: nat,
                                         block: nat, depth: nat)
    ensures LaneFilledSeal(g, p, t, s, u, v, lane, block, depth) == 1 <==> LaneFilled(g, p, t, s, u, v, lane, block)
  {
    if depth > 0 {
      UnsealFilling(g, p, t, s, u, v, lane, block, depth - 1);
    }
  }

  lemma OpenFilling(g: Geometry, p: Packet, t: Table, s: Table, u: View, v: View, lane: nat, block: nat)
    ensures Filling(g, p, t, s, u, v, lane, block) <==> LaneFilled(g, p, t, s, u, v, lane, block)
  {
    UnsealFilling(g, p, t, s, u, v, lane, block, block + 2);
  }

  lemma FillingStarts(g: Geometry, p: Packet, t: Table, v: View, lane: nat)
    requires lane < |p.lanes|
    requires CellsDone(g, p, t, v, lane, 0)
    ensures Filling(g, p, t, t, v, v, lane, 0)
  {
    LaneStarts(g.mix, t.sharing, p, v, lane);
    OpenFilling(g, p, t, t, v, v, lane, 0);
  }

  /** One more cell is bound, placed, counted and written. */
  lemma FillingGoesOn(g: Geometry, p: Packet, t: Table, s: Table, u: View, v: View, w: View, lane: nat, block: nat,
                      physical: nat, inFlight: nat, resident: nat)
    requires Filling(g, p, t, s, u, v, lane, block) && TableOk(g, s)
    requires IsCell(p, lane, block) && p.active <= g.laneCapacity && p.maxBlocks <= g.laneStride
    requires Undisturbed(v, w, {SlotKey(g.mix, p, lane, block)})
    requires LanesFit(p, lane + 1)
    requires var dk := SlotKey(g.mix, p, lane, block);
      && Rebinds(v, w, dk, Target(v, dk, WantedKey(g.mix, t.sharing, p, lane, block))) && Placed(w, dk, physical)
      && inFlight == s.inFlight + if StateOf(w, w.dir[dk]) == InFlight then 1 else 0
    requires CellReadies(g.mix, p, v, w, lane, block, WantedKey(g.mix, t.sharing, p, lane, block))
    requires inFlight + resident == s.inFlight + s.resident + 1
    ensures Cell(g.laneStride, lane, block) < |s.cells|
    ensures var cells := s.cells[Cell(g.laneStride, lane, block) := physical];
      Filling(g, p, t, s.(cells := cells, inFlight := inFlight, resident := resident), u, w, lane, block + 1)
  {
    OpenFilling(g, p, t, s, u, v, lane, block);
    LanesFitEach(p, lane + 1, lane);
    CellIsInside(g.laneStride, g.laneCapacity, lane, block);
    var cells := s.cells[Cell(g.laneStride, lane, block) := physical];
    LaneGoesOn(g.mix, t.sharing, p, u, v, w, lane, block);
    if SlotsDistinct(g.mix, p) {
      FillingKeepsFilled((g.mix, g.laneStride), t.sharing, p, s.cells, v, w, lane, block, physical);
    }
    SamePinsChain(u, v, w);
    OpenFilling(g, p, t, s.(cells := cells, inFlight := inFlight, resident := resident), u, w, lane, block + 1);
  }

  /** Slot and block of a cell: bound as asked, placed in physical slot `q`, and found in state `FoundState`. */
  ghost predicate CellBound(mix: Mixer, p: Packet, v: View, m: View, lane: nat, block: nat, key: KvKey, q: nat)
    requires lane < |p.lanes|
  {
    var dk := SlotKey(mix, p, lane, block);
    && Rebinds(v, m, dk, Target(v, dk, key)) && Placed(m, dk, q) && Spends(v, m, Target(v, dk, key))
    && Readies(v, m, dk, key, FoundState(v, dk, key))
  }

  /** A cell that is bound and placed, with its block's readiness settled. */
  ghost predicate CellBuilt(mix: Mixer, p: Packet, v: View, w: View, lane: nat, block: nat, key: KvKey, q: nat)
    requires lane < |p.lanes|
  {
    var dk := SlotKey(mix, p, lane, block);
    && Rebinds(v, w, dk, Target(v, dk, key)) && Placed(w, dk, q) && Spends(v, w, Target(v, dk, key))
    && CellReadies(mix, p, v, w, lane, block, key) && SamePins(v, w)
  }

  /** Setting the state of a bound and placed block finishes the cell. */
  lemma CellIsBuilt(mix: Mixer, p: Packet, v: View, m: View, w: View, lane: nat, block: nat, key: KvKey, q: nat,
                    s: EntryState)
    requires lane < |p.lanes| && Coherent(m) && Shaped(m) && q < |m.states|
    requires CellBound(mix, p, v, m, lane, block, key, q)
    requires Settling(p, lane, block, m.states[q]) == Some(s) && s != Transient && w == m.(states := m.states[q := s])
    ensures CellBuilt(mix, p, v, w, lane, block, key, q) && StateOf(w, w.dir[SlotKey(mix, p, lane, block)]) == s
  {
    var dk := SlotKey(mix, p, lane, block);
    StateIsSet(v, m, w, dk, key, q, s);
    StatesSpend(v, m, w, Target(v, dk, key), q);
    StatesKeepPlaced(m, w);
    RebindsThenLive(v, m, w, dk, Target(v, dk, key));
  }

  lemma CellDisturbs(mix: Mixer, p: Packet, v: View, w: View, lane: nat, block: nat, key: KvKey, q: nat)
    requires lane < |p.lanes| && Coherent(v) && Coherent(w) && CellBuilt(mix, p, v, w, lane, block, key, q)
    ensures Undisturbed(v, w, {SlotKey(mix, p, lane, block)})
  {
    var dk := SlotKey(mix, p, lane, block);
    BindingDisturbs(v, w, dk, key, Settling(p, lane, block, FoundState(v, dk, key)).value);
  }

  lemma CellCarries(g: Geometry, s: Sharing, p: Packet, r: Outcome<nat>, u: View, v: View, w: View, lane: nat,
                    block: nat, all: nat, rest: nat)
    requires Coherent(v) && Coherent(w) && IsCell(p, lane, block) && w.backingCapacity == v.backingCapacity
    requires Carries(g, s, p, u, v, all, rest + 1)
    requires var dk, key := SlotKey(g.mix, p, lane, block), WantedKey(g.mix, s, p, lane, block);
      && (r == Err(CapacityExceeded) <==>
            !CanAcquire(v, dk, key, Half(g.directoryCapacity), LimitOf(g, v.backingCapacity)))
      && (r.Ok? ==> CellBuilt(g.mix, p, v, w, lane, block, key, r.value))
      && (r == Err(Busy) ==> Settling(p, lane, block, FoundState(v, dk, key)).None?)
    ensures r.Ok? ==> Carries(g, s, p, u, w, all, rest)
    ensures Excused(r, g, s, p, u, all)
  {
    var dk, key := SlotKey(g.mix, p, lane, block), WantedKey(g.mix, s, p, lane, block);
    CellKeepsRoom(g, r, u, v, w, dk, key, all, rest);
    if r.Ok? {
      CellKeepsWarm(g.mix, s, p, v, w, lane, block);
    } else if r.error == Busy && Warm(g.mix, s, p, v) {
      WarmIsNotBusy(g.mix, s, p, v, lane, block);
    }
  }

  /** The state a bound cell's block is found in. */
  lemma CellIsFound(mix: Mixer, p: Packet, v: View, m: View, lane: nat, block: nat, key: KvKey, q: nat)
    requires lane < |p.lanes| && Coherent(m) && CellBound(mix, p, v, m, lane, block, key, q)
    ensures Shaped(m) && q < |m.states| == |m.keys| && m.states[q] == FoundState(v, SlotKey(mix, p, lane, block), key)
    ensures !m.keys[q].IsEmpty() && m.states[q] != Transient && SamePins(v, m)
  {
    BoundSlot(m, SlotKey(mix, p, lane, block));
  }

  class KvState {
    const g: Geometry
    var core: Core
    ghost var free: seq<nat>
    var nextPhysical: nat
    var table: Table

    /** Every public operation, whatever its outcome, keeps this. */
    ghost predicate Valid()
      reads this
    {
      GeometryOk(g) && Agrees(g, core, free) && nextPhysical < g.physicalCapacity && TableOk(g, table)
    }

    /** The abstract state. */
    ghost function State(): View
      reads this
    {
      Abs(core, free)
    }

    // ---- Creation and configuration ------------------------------------------

    constructor (g: Geometry)
      requires GeometryOk(g)
      ensures Valid() && this.g == g && Idle(State()) && core.backingCapacity == 0 && core.pins.None?
      ensures table == Table(seq(g.laneCapacity * g.laneStride, _ => NO_BLOCK), seq(g.laneCapacity, _ => 0),
                             Sharing(None, 0), 0, 0, 0, 0, 0)
    {
      this.g := g;
      core := IdleCore(g, 0, None, None);
      free := UpTo(0);
      nextPhysical := 0;
      table := Table(seq(g.laneCapacity * g.laneStride, _ => NO_BLOCK), seq(g.laneCapacity, _ => 0),
                     Sharing(None, 0), 0, 0, 0, 0, 0);
      new;
      IdleCoreAgrees(g, 0, None, None);
    }

    /** Check the geometry and create an idle state. */
    static method Create(g: Geometry) returns (r: Outcome<KvState>)
      ensures r == Err(InvalidArgument) <==>
        !(GeometryOk(g) && IsPowerOfTwo(g.directoryCapacity) && IsPowerOfTwo(g.blockEntryCapacity))
      ensures r == Err(CapacityExceeded) <==>
        && GeometryOk(g) && IsPowerOfTwo(g.directoryCapacity) && IsPowerOfTwo(g.blockEntryCapacity)
        && g.laneCapacity * g.laneStride > 0xFFFF_FFFF
      ensures r.Err? ==> r.error in {InvalidArgument, CapacityExceeded}
      ensures r.Ok? ==> fresh(r.value) && r.value.g == g && r.value.Valid() && Idle(r.value.State())
    {
      if !(GeometryOk(g) && IsPowerOfTwo(g.directoryCapacity) && IsPowerOfTwo(g.blockEntryCapacity)) {
        return Err(InvalidArgument);
      }
      if g.laneCapacity * g.laneStride > 0xFFFF_FFFF {
        return Err(CapacityExceeded);
      }
      var state := new KvState(g);
      return Ok(state);
    }

    /** The links of a list of all backing slots in order. */
    static method ThreadFreeList(capacity: nat) returns (next: seq<nat>)
      requires 0 < capacity < NO_BLOCK
      ensures Links(Some(next), 0, capacity, UpTo(capacity))
    {
      next := [];
      for i := 0 to capacity
        invariant |next| == i
        invariant forall k :: 0 <= k < i ==> next[k] == if k + 1 < capacity then k + 1 else NO_BLOCK
      {
        next := next + [if i + 1 < capacity then i + 1 else NO_BLOCK];
      }
      FreshLinks(next, capacity);
    }

    /** Give an unused state a backing store. */
    method ConfigureSwap(capacity: nat) returns (r: Outcome<()>)
      requires Valid()
      modifies this`core, this`free
      ensures Valid()
      ensures r.Ok? <==>
        && 0 < capacity <= Half(g.directoryCapacity)
        && old(State()).dir == map[] && Occupied(old(core.keys)) == 0 && old(core.backingCapacity) == 0
      ensures r.Ok? ==> Idle(State()) && core.backingCapacity == capacity && core.pins == old(core.pins)
      ensures r.Err? ==> core == old(core) && free == old(free)
    {
      StoredIsBased(g, core, free);
      if capacity == 0 || capacity > Half(g.directoryCapacity) || core.directoryCount != 0 || core.allocatedCount != 0
         || core.backingCapacity != 0 {
        assert State().dir == map[] ==> core.directoryCount == 0;
        return Err(InvalidArgument);
      }
      assert State().dir == map[];
      EmptyBecomesIdle(State(), capacity, core.pins);
      var next := ThreadFreeList(capacity);
      core := core.(backingCapacity := capacity, freeHead := 0, freeNext := Some(next));
      free := UpTo(capacity);
      IdleIsCoherent(State());
      OpenStored(g, core, free);
      return Ok(());
    }

    /** Give an unused state a pin table. */
    method ConfigurePins() returns (r: Outcome<()>)
      requires Valid()
      modifies this`core
      ensures Valid()
      ensures r.Ok? <==> old(core.pins).None? && old(State()).dir == map[] && Occupied(old(core.keys)) == 0
      ensures r.Ok? ==> State() == old(State()).(pins := Some(seq(|core.keys|, _ => 0)))
      ensures r.Err? ==> core == old(core)
    {
      StoredIsBased(g, core, free);
      if core.pins.Some? || core.directoryCount != 0 || core.allocatedCount != 0 {
        assert State().dir == map[] ==> core.directoryCount == 0;
        return Err(InvalidArgument);
      }
      assert State().dir == map[];
      NoneOccupied(core.keys);
      ghost var v, c := State(), core;
      core := core.(pins := Some(seq(g.physicalCapacity, _ => 0)));
      SlotsAreStored(g, c, core, free);
      SamePlacesKeepCoherent(v, State());
      return Ok(());
    }

    /** Publish content keys for the blocks the next packet will acquire. */
    method ConfigureSharing(keys: Option<seq<KvKey>>, stride: nat) returns (r: Outcome<()>)
      requires Valid()
      modifies this`table
      ensures Valid()
      ensures r.Ok? <==> (keys.None? <==> stride == 0) && stride <= g.laneStride
      ensures table == if r.Ok? then old(table).(sharing := Sharing(keys, stride)) else old(table)
    {
      if keys.None? != (stride == 0) || stride > g.laneStride {
        return Err(InvalidArgument);
      }
      table := table.(sharing := Sharing(keys, stride));
      return Ok(());
    }

    // ---- Pins ----------------------------------------------------------------

    /** Set the pin count of an occupied slot. */
    method SetPin(p: nat, count: nat)
      requires GeometryOk(g) && Agrees(g, core, free) && core.pins.Some?
      requires p < |core.keys| == |core.pins.value| && !core.keys[p].IsEmpty()
      modifies this`core
      ensures Agrees(g, core, free) && State() == old(State()).(pins := Some(old(core.pins.value)[p := count]))
    {
      ghost var v, c := State(), core;
      StoredIsBased(g, core, free);
      core := core.(pins := Some(core.pins.value[p := count]));
      SlotsAreStored(g, c, core, free);
      SamePlacesKeepCoherent(v, State());
    }

    /** Pin the block in a physical slot. */
    method PinPhysicalBlock(p: nat) returns (r: Outcome<()>)
      requires Valid()
      modifies this`core
      ensures Valid()
      ensures r.Ok? <==>
        && p < |old(core.keys)| && !old(core.keys)[p].IsEmpty()
        && old(core.pins).Some? && p < |old(core.pins).value| && old(core.pins).value[p] != 0xFFFF_FFFF
      ensures r.Ok? ==> var pins := old(core.pins).value; State() == old(State()).(pins := Some(pins[p := pins[p] + 1]))
      ensures r.Err? ==> core == old(core)
    {
      StoredIsBased(g, core, free);
      if p >= g.physicalCapacity || core.keys[p].IsEmpty() || core.pins.None? || core.pins.value[p] == 0xFFFF_FFFF {
        return Err(InvalidArgument);
      }
      SetPin(p, core.pins.value[p] + 1);
      return Ok(());
    }

    /** Drop one pin. A pinned slot is always occupied. */
    method UnpinPhysicalBlock(p: nat) returns (r: Outcome<()>)
      requires Valid()
      modifies this`core
      ensures Valid()
      ensures r.Ok? <==> old(core.pins).Some? && p < |old(core.pins).value| && old(core.pins).value[p] > 0
      ensures r.Ok? ==> p < |old(core.keys)| && !old(core.keys)[p].IsEmpty()
      ensures r.Ok? ==> var pins := old(core.pins).value; State() == old(State()).(pins := Some(pins[p := pins[p] - 1]))
      ensures r.Err? ==> core == old(core)
    {
      StoredIsBased(g, core, free);
      if p >= g.physicalCapacity || core.pins.None? || core.pins.value[p] == 0 {
        return Err(InvalidArgument);
      }
      SitedSlot(State(), p);
      SetPin(p, core.pins.value[p] - 1);
      return Ok(());
    }

    // ---- Generations ---------------------------------------------------------

    /** Forget everything; the backing store and the pin table stay configured. */
    method ResetGeneration(generation: nat)
      requires Valid()
      modifies this`core, this`free, this`nextPhysical, this`table
      ensures Valid() && Idle(State()) && table.generation == generation
      ensures core.backingCapacity == old(core.backingCapacity) && core.pins.Some? == old(core.pins).Some?
      ensures table.sharing == old(table.sharing) && nextPhysical == 0
    {
      StoredIsBased(g, core, free);
      var next: Option<seq<nat>> := None;
      if core.backingCapacity > 0 {
        var links := ThreadFreeList(core.backingCapacity);
        next := Some(links);
      }
      var pins := if core.pins.Some? then Some(seq(g.physicalCapacity, _ => 0)) else None;
      IdleCoreAgrees(g, core.backingCapacity, pins, next);
      table := table.(cells := seq(|table.cells|, _ => NO_BLOCK), counts := seq(|table.counts|, _ => 0),
                      missing := 0, inFlight := 0, resident := 0, generation := generation);
      free := UpTo(core.backingCapacity);
      core := IdleCore(g, core.backingCapacity, pins, next);
      nextPhysical := 0;
    }

    /** Move to a newer generation, forgetting the old one's blocks; an older one is refused. */
    method AdvanceGeneration(generation: nat) returns (r: Outcome<()>)
      requires Valid()
      modifies this`core, this`free, this`nextPhysical, this`table
      ensures Valid()
      ensures r == Err(InvalidArgument) <==> generation == 0
      ensures r == Err(ValidationFailed) <==> 0 < generation < old(table.generation)
      ensures r.Err? ==> r.error in {InvalidArgument, ValidationFailed}
      ensures r.Ok? ==> table.generation == generation
      ensures r.Err? || generation == old(table.generation) ==>
        core == old(core) && free == old(free) && nextPhysical == old(nextPhysical) && table == old(table)
      ensures r.Ok? && generation > old(table.generation) ==> Idle(State())
      ensures core.backingCapacity == old(core.backingCapacity) && table.sharing == old(table.sharing)
    {
      if generation == 0 {
        return Err(InvalidArgument);
      }
      if generation < table.generation {
        return Err(ValidationFailed);
      }
      if generation != table.generation {
        ResetGeneration(generation);
      }
      return Ok(());
    }

    // ---- Backing slots -------------------------------------------------------

    /** Take a backing slot, or the "no block" marker when there is no backing store. */
    method BackingAcquire() returns (r: Outcome<nat>)
      requires Links(core.freeNext, core.freeHead, core.backingCapacity, free)
      modifies this`core, this`free
      ensures core == old(core).(freeNext := core.freeNext, freeHead := core.freeHead)
      ensures Links(core.freeNext, core.freeHead, core.backingCapacity, free)
      ensures core.backingCapacity == 0 ==> r == Ok(NO_BLOCK) && free == old(free)
      ensures core.backingCapacity > 0 && old(free) == [] ==>
        r == Err(CapacityExceeded) && free == old(free) && core == old(core)
      ensures core.backingCapacity > 0 && old(free) != [] ==> r == Ok(old(free)[0]) && free == old(free)[1..]
    {
      if core.backingCapacity == 0 {
        return Ok(NO_BLOCK);
      }
      var backing := core.freeHead;
      if backing >= core.backingCapacity {
        return Err(CapacityExceeded);
      }
      var next := core.freeNext.value;
      LinksAfterPop(next, core.freeHead, core.backingCapacity, free);
      core := core.(freeHead := next[backing], freeNext := Some(next[backing := NO_BLOCK]));
      free := free[1..];
      return Ok(backing);
    }

    /** Return a backing slot; the double-release checks cannot fire for a slot in use. */
    method BackingRelease(backing: nat)
      requires Links(core.freeNext, core.freeHead, core.backingCapacity, free)
      requires core.backingCapacity == 0 ==> backing == NO_BLOCK
      requires core.backingCapacity > 0 ==> backing < core.backingCapacity && backing !in free
      modifies this`core, this`free
      ensures core == old(core).(freeNext := core.freeNext, freeHead := core.freeHead)
      ensures Links(core.freeNext, core.freeHead, core.backingCapacity, free)
      ensures free == if core.backingCapacity == 0 then old(free) else [backing] + old(free)
    {
      if core.backingCapacity == 0 {
        return;
      }
      var next := core.freeNext.value;
      LinksAfterPush(next, core.freeHead, core.backingCapacity, free, backing);
      core := core.(freeNext := Some(next[backing := core.freeHead]), freeHead := backing);
      free := [backing] + free;
    }

    // ---- Physical slots ------------------------------------------------------

    /** Write a resident block out and mark its record swapped. The store hook may fail. */
    method SpillBlock(slot: nat, physical: nat) returns (r: Outcome<()>)
      requires GeometryOk(g) && Based(g, core, free) && slot < |core.blocks| && core.blocks[slot].Held?
      requires Evictable(Abs(core, free), core.blocks[slot].key) && core.blocks[slot].value.physical == physical
      modifies this`core
      ensures Based(g, core, free)
      ensures r.Ok? ==> Abs(core, free) == Spilled(old(Abs(core, free)), old(core.blocks[slot].key))
      ensures OnlySlotsChange(old(core), core)
      ensures r.Err? ==> r.error == HookFailed && core == old(core)
    {
      var key, entry := core.blocks[slot].key, core.blocks[slot].value;
      ghost var v := Abs(core, free);
      SpillKeepsSited(v, key);
      var disk := core.disk;
      if !entry.backingValid {
        var stored: bool := *;
        if !stored {
          return Err(HookFailed);
        }
        disk := disk[entry.backing := At(core.gpu, physical)];
      }
      var after := entry.(physical := NO_BLOCK, onGpu := false, backingValid := true);
      UpdateRefines(core.blocks, slot, after);
      core := core.(
        blocks := core.blocks[slot := Held(key, after)],
        keys := core.keys[physical := EMPTY_KEY],
        lastUsed := core.lastUsed[physical := 0],
        states := core.states[physical := Missing],
        allocatedCount := core.allocatedCount - 1,
        swappedCount := core.swappedCount + 1,
        disk := disk);
      assert Abs(core, free) == Spilled(v, key);
      return Ok(());
    }

    /** The slot `steps` places after `start`, around the end. */
    static function SlotAfter(start: nat, steps: nat, n: nat): nat
      requires start < n && steps <= n
    {
      if start + steps < n then start + steps else start + steps - n
    }

    /**
     * Clock sweep: a free slot wins outright, otherwise the first unpinned resident block outside the current
     * epoch is spilled. It reports a full store exactly when no slot is claimable.
     */
    method AcquirePhysicalBlock() returns (r: Outcome<nat>)
      requires GeometryOk(g) && Based(g, core, free) && nextPhysical < g.physicalCapacity
      modifies this`core, this`nextPhysical
      ensures Based(g, core, free) && nextPhysical < g.physicalCapacity
      ensures OnlySlotsChange(old(core), core)
      ensures r.Ok? ==> Sweeps(old(Abs(core, free)), Abs(core, free)) && IsFree(Abs(core, free), r.value)
      ensures r.Ok? ==> Claimable(old(Abs(core, free)), r.value) && nextPhysical == Next(r.value, g.physicalCapacity)
      ensures r.Ok? ==> forall k :: 0 <= k < Dist(old(nextPhysical), r.value, g.physicalCapacity) ==>
        !Claimable(old(Abs(core, free)), SlotAfter(old(nextPhysical), k, g.physicalCapacity))
      ensures r.Err? ==> core == old(core)
      ensures FullUnless(r, HasClaim(old(Abs(core, free))), old(Abs(core, free)))
    {
      var n, start := g.physicalCapacity, nextPhysical;
      ghost var v := Abs(core, free);
      for steps := 0 to n
        invariant core == old(core) && nextPhysical < n
        invariant nextPhysical == if steps < n then SlotAfter(start, steps, n) else start
        invariant forall k :: 0 <= k < steps ==> !Claimable(v, SlotAfter(start, k, n))
      {
        var p := nextPhysical;
        nextPhysical := Next(p, n);
        assert p == SlotAfter(start, steps, n);
        SitedSlot(v, p);
        if core.pins.Some? && core.pins.value[p] != 0 {
          continue;
        }
        if core.keys[p].IsEmpty() {
          assert Claimable(v, p);
          return Ok(p);
        }
        if core.backingCapacity == 0 || core.states[p] != Resident || core.lastUsed[p] == core.epoch {
          continue;
        }
        var slot, found := Find(core.blocks, core.keys[p]);
        assert found && Claimable(v, p);
        var spilled := SpillBlock(slot, p);
        r := match spilled case Ok(_) => Ok(p) case Err(e) => Err(e);
        return;
      }
      forall p: nat ensures !Claimable(v, p) {
        if p < n {
          assert p == SlotAfter(start, Dist(start, p, n), n);
        }
      }
      return Err(CapacityExceeded);
    }

    // ---- Blocks --------------------------------------------------------------

    /** Sweep for a physical slot; on failure the backing slot already taken goes back to the list. */
    method AcquireOrReturn(backing: nat) returns (r: Outcome<nat>)
      requires GeometryOk(g) && Based(g, core, free) && nextPhysical < g.physicalCapacity
      requires Links(core.freeNext, core.freeHead, core.backingCapacity, free)
      requires core.backingCapacity == 0 ==> backing == NO_BLOCK
      requires core.backingCapacity > 0 ==> backing < core.backingCapacity && backing !in free
      modifies this`core, this`free, this`nextPhysical
      ensures nextPhysical < g.physicalCapacity && DirectoryKept(old(core), core)
      ensures core.blockCount == old(core.blockCount)
      ensures Links(core.freeNext, core.freeHead, core.backingCapacity, free)
      ensures r.Ok? ==> Based(g, core, free) && free == old(free) && SameLayout(old(core.blocks), core.blocks)
      ensures r.Ok? ==> Sweeps(old(Abs(core, free)), Abs(core, free)) && IsFree(Abs(core, free), r.value)
      ensures r.Err? ==> free == if core.backingCapacity == 0 then old(free) else [backing] + old(free)
      ensures r.Err? ==> core == old(core).(freeNext := core.freeNext, freeHead := core.freeHead)
      ensures FullUnless(r, HasClaim(old(Abs(core, free))), old(Abs(core, free)))
    {
      r := AcquirePhysicalBlock();
      if r.Err? {
        BackingRelease(backing);
      }
    }

    /** Take a backing slot and a physical slot; on failure nothing changes. */
    method TakeSlots() returns (r: Outcome<(nat, nat)>)
      requires GeometryOk(g) && Stored(g, core, free) && nextPhysical < g.physicalCapacity
      modifies this`core, this`free, this`nextPhysical
      ensures nextPhysical < g.physicalCapacity && DirectoryKept(old(core), core)
      ensures r.Err? ==> Stored(g, core, free) && Abs(core, free) == old(Abs(core, free))
      ensures core.blockCount == old(core.blockCount)
      ensures r.Ok? ==> Based(g, core, free) && Links(core.freeNext, core.freeHead, core.backingCapacity, free)
      ensures r.Ok? ==> SameLayout(old(core.blocks), core.blocks)
      ensures r.Ok? ==>
        var v := old(Abs(core, free));
        && (v.backingCapacity > 0 ==> v.freeList != []) && r.value.0 == NextBacking(v)
        && Sweeps(v.(freeList := Rest(v)), Abs(core, free)) && IsFree(Abs(core, free), r.value.1)
      ensures var v := old(Abs(core, free));
        FullUnless(r, (v.backingCapacity > 0 ==> v.freeList != []) && HasClaim(v), v)
    {
      ghost var v, before := Abs(core, free), core;
      StoredIsBased(g, core, free);
      var backing := BackingAcquire();
      if backing.Err? {
        return Err(backing.error);
      }
      SitedIgnoresFreeList(v, free);
      if core.backingCapacity > 0 {
        TakenBacking(v);
      }
      assert Abs(core, free) == v.(freeList := Rest(v));
      ClaimsIgnoreFreeList(v, Rest(v));
      var physical := AcquireOrReturn(backing.value);
      if physical.Err? {
        assert free == v.freeList;
        RelinkedIsStored(g, before, core, free);
        return Err(physical.error);
      }
      return Ok((backing.value, physical.value));
    }

    /** Admit `bk` to a slot the sweep frees and the next backing slot; on failure nothing changes. */
    method AdmitBlock(bk: KvKey, slot: nat) returns (r: Outcome<()>)
      requires GeometryOk(g) && Stored(g, core, free) && nextPhysical < g.physicalCapacity
      requires !bk.IsEmpty() && bk !in Contents(core.blocks) && InsertionPoint(core.blocks, bk, slot)
      requires core.backingCapacity <= Half(g.blockEntryCapacity) && core.blockCount < BlockLimit(g, core)
      modifies this`core, this`free, this`nextPhysical
      ensures Stored(g, core, free) && nextPhysical < g.physicalCapacity && DirectoryKept(old(core), core)
      ensures r.Ok? ==> Resolved(old(Abs(core, free)), Abs(core, free), bk)
      ensures r.Err? ==> Abs(core, free) == old(Abs(core, free))
      ensures FullUnless(r, CanResolve(old(Abs(core, free)), bk, BlockLimit(g, old(core))), old(Abs(core, free)))
    {
      ghost var v, before := Abs(core, free), core;
      StoredIsBased(g, core, free);
      var taken := TakeSlots();
      if taken.Err? {
        return Err(taken.error);
      }
      var (backing, physical) := taken.value;
      SitedIgnoresFreeList(v, Rest(v));
      SweepKeepsSited(v.(freeList := Rest(v)), Abs(core, free));
      LayoutKeepsInsertionPoint(before.blocks, core.blocks, bk, slot);
      NewBlockIsStored(g, v, core, free, slot, bk, physical);
      core := WithNewBlock(core, slot, bk, Block(physical, backing, 1, true, false, 0));
      return Ok(());
    }

    method SetReferences(slot: nat, refs: nat)
      requires GeometryOk(g) && Stored(g, core, free) && slot < |core.blocks| && core.blocks[slot].Held?
      modifies this`core
      ensures Stored(g, core, free) && DirectoryKept(old(core), core)
      ensures old(core.blocks[slot].key) in old(Abs(core, free)).blk
      ensures Abs(core, free) == WithRefs(old(Abs(core, free)), old(core.blocks[slot].key), refs)
    {
      var record := core.blocks[slot].value.(refs := refs);
      OpenStored(g, core, free);
      RecordIsStored(g, core, free, slot, record);
      core := WithRecord(core, slot, record);
    }

    /** Take a reference on the block a key names: share it, or admit it on first reference. */
    method BlockResolve(bk: KvKey) returns (r: Outcome<()>)
      requires GeometryOk(g) && Stored(g, core, free) && nextPhysical < g.physicalCapacity
      requires !bk.IsEmpty() && core.backingCapacity <= Half(g.blockEntryCapacity)
      modifies this`core, this`free, this`nextPhysical
      ensures Stored(g, core, free) && nextPhysical < g.physicalCapacity && DirectoryKept(old(core), core)
      ensures r.Ok? ==> Resolved(old(Abs(core, free)), Abs(core, free), bk)
      ensures r.Err? ==> Abs(core, free) == old(Abs(core, free))
      ensures FullUnless(r, CanResolve(old(Abs(core, free)), bk, BlockLimit(g, old(core))), old(Abs(core, free)))
    {
      StoredIsBased(g, core, free);
      UnfilledTableHasVacancy(core.blocks);
      var slot, found := Probe(core.blocks, bk);
      if slot == SATURATED {
        assert false;
        return Err(CapacityExceeded);
      }
      if found {
        SetReferences(slot, core.blocks[slot].value.refs + 1);
        return Ok(());
      }
      if core.blockCount >= BlockLimit(g, core) {
        return Err(CapacityExceeded);
      }
      r := AdmitBlock(bk, slot);
    }

    /** Drop the block in `slot` and everything it owns. */
    method FreeBlock(slot: nat)
      requires GeometryOk(g) && Stored(g, core, free) && slot < |core.blocks| && core.blocks[slot].Held?
      requires !IsPinned(Abs(core, free), core.blocks[slot].key)
      modifies this`core, this`free
      ensures Stored(g, core, free) && DirectoryKept(old(core), core)
      ensures old(core.blocks[slot].key) in old(Abs(core, free)).blk
      ensures old(BlockStored(Abs(core, free), core.blocks[slot].key))
      ensures Abs(core, free) == Freed(old(Abs(core, free)), old(core.blocks[slot].key))
    {
      ghost var c, f := core, free;
      StoredIsBased(g, core, free);
      var bk, entry := core.blocks[slot].key, core.blocks[slot].value;
      HeldIsContained(core.blocks, slot);
      BlockIsCounted(g, core, free, bk);
      OwnedBacking(Abs(core, free), bk);
      BackingRelease(entry.backing);
      var erased := Erase(core.blocks, slot);
      FreedIsStored(g, c, f, core, free, bk, erased);
      core := WithoutBlock(core, entry, erased);
    }

    /** Drop a reference; the last one frees the block, unless its slot is pinned. */
    method BlockDeref(bk: KvKey) returns (r: Outcome<()>)
      requires GeometryOk(g) && Stored(g, core, free) && !bk.IsEmpty()
      requires bk in Contents(core.blocks) ==> Contents(core.blocks)[bk].refs > 0
      modifies this`core, this`free
      ensures Stored(g, core, free) && DirectoryKept(old(core), core)
      ensures r.Err? ==> core == old(core) && free == old(free)
      ensures r == Err(NotFound) <==> bk !in old(Abs(core, free)).blk
      ensures r == Err(Busy) <==> IsPinned(old(Abs(core, free)), bk) && old(Abs(core, free)).blk[bk].refs == 1
      ensures r.Err? ==> r.error in {NotFound, Busy}
      ensures r.Ok? ==> BlockStored(old(Abs(core, free)), bk) && Abs(core, free) == Dropped(old(Abs(core, free)), bk)
    {
      StoredIsBased(g, core, free);
      var slot, found := Find(core.blocks, bk);
      if !found {
        return Err(NotFound);
      }
      var entry := core.blocks[slot].value;
      BlockIsCounted(g, core, free, bk);
      if entry.refs > 1 {
        SetReferences(slot, entry.refs - 1);
        return Ok(());
      }
      if entry.onGpu && core.pins.Some? && core.pins.value[entry.physical] != 0 {
        return Err(Busy);
      }
      FreeBlock(slot);
      return Ok(());
    }

    /** The sweep, with the backing store kept exact. */
    method SweepStored() returns (r: Outcome<nat>)
      requires GeometryOk(g) && Stored(g, core, free) && nextPhysical < g.physicalCapacity
      modifies this`core, this`nextPhysical
      ensures Stored(g, core, free) && nextPhysical < g.physicalCapacity && OnlySlotsChange(old(core), core)
      ensures Sweeps(old(Abs(core, free)), Abs(core, free)) && (r.Err? ==> core == old(core))
      ensures r.Ok? ==> IsFree(Abs(core, free), r.value)
      ensures FullUnless(r, HasClaim(old(Abs(core, free))), old(Abs(core, free)))
    {
      ghost var v := Abs(core, free);
      StoredIsBased(g, core, free);
      r := AcquirePhysicalBlock();
      SweepKeepsIntact(v, Abs(core, free));
      OpenStored(g, core, free);
    }

    /** Change a block's identity in place, keeping its bytes. */
    method RekeyBlock(source: nat, bk: KvKey)
      requires GeometryOk(g) && Stored(g, core, free) && source < |core.blocks| && core.blocks[source].Held?
      requires bk !in Contents(core.blocks) && !bk.IsEmpty()
      modifies this`core
      ensures Stored(g, core, free) && DirectoryKept(old(core), core)
      ensures old(core.blocks[source].key) in old(Abs(core, free)).blk
      ensures old(BlockStored(Abs(core, free), core.blocks[source].key))
      ensures Abs(core, free) == Rekeyed(old(Abs(core, free)), old(core.blocks[source].key), bk)
    {
      var from, record := core.blocks[source].key, core.blocks[source].value;
      StoredIsBased(g, core, free);
      HeldIsContained(core.blocks, source);
      BlockIsCounted(g, core, free, from);
      var erased := Erase(core.blocks, source);
      SizeAfterRemove(Contents(core.blocks), from);
      UnfilledTableHasVacancy(erased);
      var slot, found := Probe(erased, bk);
      InsertRefines(erased, bk, record, slot);
      RekeyedIsStored(g, core, free, from, bk, erased[slot := Held(bk, record)]);
      core := WithNewKey(core, record, bk, erased[slot := Held(bk, record)]);
    }

    /** The physical slot a block resides in, faulting it back in when the sweep has spilled it. */
    method BlockResident(bk: KvKey) returns (r: Outcome<nat>)
      requires GeometryOk(g) && Stored(g, core, free) && nextPhysical < g.physicalCapacity
      requires bk in Contents(core.blocks)
      modifies this`core, this`nextPhysical
      ensures Stored(g, core, free) && nextPhysical < g.physicalCapacity && DirectoryKept(old(core), core)
      ensures r.Ok? ==> MadeResident(old(Abs(core, free)), Abs(core, free), bk, r.value)
      ensures r.Err? ==> Sweeps(old(Abs(core, free)), Abs(core, free))
      ensures FullUnless(r, Placeable(old(Abs(core, free)), bk), old(Abs(core, free)))
    {
      ghost var v := Abs(core, free);
      StoredIsBased(g, core, free);
      BlockIsCounted(g, core, free, bk);
      var slot, found := Find(core.blocks, bk);
      var entry := core.blocks[slot].value;
      if entry.onGpu {
        ghost var touched := core.(lastUsed := core.lastUsed[entry.physical := core.epoch]);
        SlotsAreStored(g, core, touched, free);
        core := core.(lastUsed := core.lastUsed[entry.physical := core.epoch]);
        return Ok(entry.physical);
      }
      r := SweepStored();
      if r.Err? {
        return;
      }
      var loaded: bool := *;
      if !loaded {
        return Err(HookFailed);
      }
      FaultedIsStored(g, v, core, free, slot, r.value);
      core := WithResident(core, slot, r.value);
    }

    // ---- Directory slots -----------------------------------------------------

    /** Bind an unbound slot. */
    method InsertBinding(slot: nat, dk: KvKey, bk: KvKey) returns (r: Outcome<()>)
      requires GeometryOk(g) && Agrees(g, core, free) && nextPhysical < g.physicalCapacity
      requires core.backingCapacity <= Half(g.blockEntryCapacity)
      requires IsPrivate(dk) && MayName(dk, bk) && !bk.IsEmpty()
      requires dk !in Contents(core.directory) && InsertionPoint(core.directory, dk, slot)
      modifies this`core, this`free, this`nextPhysical
      ensures Agrees(g, core, free) && nextPhysical < g.physicalCapacity
      ensures core.backingCapacity == old(core.backingCapacity)
      ensures r.Ok? ==> Inserted(old(Abs(core, free)), Abs(core, free), dk, bk)
      ensures r.Ok? ==> core.directory == old(core.directory)[slot := Held(dk, bk)]
      ensures r.Err? ==> Abs(core, free) == old(Abs(core, free))
      ensures var v := old(Abs(core, free));
        FullUnless(r, |v.dir| < Half(g.directoryCapacity) && CanResolve(v, bk, BlockLimit(g, core)), v)
    {
      if core.directoryCount >= Half(g.directoryCapacity) {
        return Err(CapacityExceeded);
      }
      ghost var v := Abs(core, free);
      r := BlockResolve(bk);
      if r.Err? {
        return;
      }
      BindingIsStored(g, core, free, slot, dk, bk);
      ghost var m := Abs(core, free);
      core := WithBinding(core, slot, dk, bk);
      assert Abs(core, free) == m.(dir := v.dir[dk := bk]);
      InsertKeepsCoherent(v, Abs(core, free), dk, bk);
    }

    /** Publish the unshared block of a bound slot under another key, in place. */
    method PublishBinding(slot: nat, source: nat, bk: KvKey)
      requires GeometryOk(g) && Agrees(g, core, free)
      requires slot < |core.directory| && core.directory[slot].Held? && MayName(core.directory[slot].key, bk)
      requires source < |core.blocks| && core.blocks[source].Held?
      requires core.blocks[source].key == core.directory[slot].value
      requires core.blocks[source].value.refs == 1 && bk !in Contents(core.blocks) && !bk.IsEmpty()
      requires !IsPinned(Abs(core, free), core.blocks[source].key)
      modifies this`core
      ensures Agrees(g, core, free)
      ensures core.backingCapacity == old(core.backingCapacity)
      ensures var v := old(Abs(core, free)); var from := old(core.directory[slot].value);
        BlockStored(v, from)
        && Abs(core, free) == Rekeyed(v, from, bk).(dir := v.dir[old(core.directory[slot].key) := bk])
      ensures core.directory == old(core.directory)[slot := Held(old(core.directory[slot].key), bk)]
    {
      ghost var v, dk := Abs(core, free), core.directory[slot].key;
      HeldIsContained(core.directory, slot);
      StoredIsBased(g, core, free);
      HeldIsContained(core.blocks, source);
      BoundSlot(v, dk);
      RekeyKeepsCoherent(v, dk, bk);
      RekeyBlock(source, bk);
      TargetIsStored(g, core, free, slot, bk);
      core := WithTarget(core, slot, bk);
    }

    /** Move a bound slot to another block by taking a reference there and dropping the old one. */
    method MoveBinding(slot: nat, bk: KvKey) returns (r: Outcome<()>)
      requires GeometryOk(g) && Agrees(g, core, free) && nextPhysical < g.physicalCapacity
      requires core.backingCapacity <= Half(g.blockEntryCapacity)
      requires slot < |core.directory| && core.directory[slot].Held?
      requires MayName(core.directory[slot].key, bk) && core.directory[slot].value != bk && !bk.IsEmpty()
      requires !IsPinned(Abs(core, free), core.directory[slot].value)
      requires core.directory[slot].value in Contents(core.blocks)
      requires bk in Contents(core.blocks) || Contents(core.blocks)[core.directory[slot].value].refs > 1
      modifies this`core, this`free, this`nextPhysical
      ensures Agrees(g, core, free) && nextPhysical < g.physicalCapacity
      ensures core.backingCapacity == old(core.backingCapacity)
      ensures r.Ok? ==> exists m: View ::
        var v := old(Abs(core, free));
        && Resolved(v, m, bk) && BlockStored(m, old(core.directory[slot].value))
        && Abs(core, free)
           == Dropped(m, old(core.directory[slot].value)).(dir := v.dir[old(core.directory[slot].key) := bk])
      ensures r.Ok? ==> core.directory == old(core.directory)[slot := Held(old(core.directory[slot].key), bk)]
      ensures r.Err? ==> Abs(core, free) == old(Abs(core, free))
      ensures FullUnless(r, CanResolve(old(Abs(core, free)), bk, BlockLimit(g, core)), old(Abs(core, free)))
    {
      var dk, from := core.directory[slot].key, core.directory[slot].value;
      ghost var v := Abs(core, free);
      HeldIsContained(core.directory, slot);
      r := BlockResolve(bk);
      if r.Err? {
        return;
      }
      ghost var m := Abs(core, free);
      LeaveIsSafe(v, m, dk, bk);
      MoveKeepsCoherent(v, m, dk, bk);
      r := BlockDeref(from);
      TargetIsStored(g, core, free, slot, bk);
      core := WithTarget(core, slot, bk);
    }

    /** Point a slot, whose block no pin holds, at another key: in place if the block is unshared and the key new. */
    method PromoteUnpinned(slot: nat, source: nat, bk: KvKey) returns (r: Outcome<()>)
      requires GeometryOk(g) && Agrees(g, core, free) && nextPhysical < g.physicalCapacity
      requires core.backingCapacity <= Half(g.blockEntryCapacity)
      requires slot < |core.directory| && core.directory[slot].Held? && source < |core.blocks|
      requires core.blocks[source].Held? && core.blocks[source].key == core.directory[slot].value
      requires MayName(core.directory[slot].key, bk) && core.directory[slot].value != bk && !bk.IsEmpty()
      requires !IsPinned(Abs(core, free), core.directory[slot].value)
      modifies this`core, this`free, this`nextPhysical
      ensures Agrees(g, core, free) && nextPhysical < g.physicalCapacity
      ensures core.backingCapacity == old(core.backingCapacity)
      ensures r.Ok? ==>
        var v, dk := old(Abs(core, free)), old(core.directory[slot].key);
        && dk in v.dir && BlockStored(v, v.dir[dk]) && Promoted(v, Abs(core, free), dk, bk)
        && core.directory == old(core.directory)[slot := Held(dk, bk)]
      ensures r.Err? ==> Abs(core, free) == old(Abs(core, free))
      ensures var v, dk := old(Abs(core, free)), old(core.directory[slot].key);
        FullUnless(r, CanBind(v, dk, bk, Half(g.directoryCapacity), BlockLimit(g, core)), v)
    {
      ghost var v, dk := Abs(core, free), core.directory[slot].key;
      HeldIsContained(core.directory, slot);
      BoundSlot(v, dk);
      StoredIsBased(g, core, free);
      HeldIsContained(core.blocks, source);
      var _, present := Find(core.blocks, bk);
      if !present && core.blocks[source].value.refs == 1 {
        PublishBinding(slot, source, bk);
        return Ok(());
      }
      r := MoveBinding(slot, bk);
    }

    /**
     * Move a bound slot onto another key: refused while its block is pinned, by renaming an unshared block, or by
     * taking a reference and dropping the old one.
     */
    method PromoteBlock(slot: nat, bk: KvKey) returns (r: Outcome<()>)
      requires GeometryOk(g) && Agrees(g, core, free) && nextPhysical < g.physicalCapacity
      requires core.backingCapacity <= Half(g.blockEntryCapacity)
      requires slot < |core.directory| && core.directory[slot].Held?
      requires MayName(core.directory[slot].key, bk) && core.directory[slot].value != bk && !bk.IsEmpty()
      modifies this`core, this`free, this`nextPhysical
      ensures Agrees(g, core, free) && nextPhysical < g.physicalCapacity
      ensures core.backingCapacity == old(core.backingCapacity)
      ensures r.Ok? ==>
        var v, dk := old(Abs(core, free)), old(core.directory[slot].key);
        && dk in v.dir && BlockStored(v, v.dir[dk]) && Promoted(v, Abs(core, free), dk, bk)
        && core.directory == old(core.directory)[slot := Held(dk, Target(v, dk, bk))]
      ensures r.Err? ==> Abs(core, free) == old(Abs(core, free))
      ensures var v, dk := old(Abs(core, free)), old(core.directory[slot].key);
        FullUnless(r, CanBind(v, dk, bk, Half(g.directoryCapacity), BlockLimit(g, core)), v)
    {
      ghost var v, dk := Abs(core, free), core.directory[slot].key;
      var from := core.directory[slot].value;
      HeldIsContained(core.directory, slot);
      BoundSlot(v, dk);
      StoredIsBased(g, core, free);
      var source, found := Find(core.blocks, from);
      var previous := core.blocks[source].value;
      if previous.onGpu && core.pins.Some? && core.pins.value[previous.physical] != 0 {
        assert core.directory == core.directory[slot := Held(dk, from)];
        return Ok(());
      }
      r := PromoteUnpinned(slot, source, bk);
    }

    /** Move a bound slot onto another key, or as near as a pin allows; answers the key it is bound to. */
    method RebindSlot(slot: nat, bk: KvKey) returns (r: Outcome<KvKey>)
      requires GeometryOk(g) && Agrees(g, core, free) && nextPhysical < g.physicalCapacity
      requires core.backingCapacity <= Half(g.blockEntryCapacity)
      requires slot < |core.directory| && core.directory[slot].Held?
      requires MayName(core.directory[slot].key, bk) && core.directory[slot].value != bk && !bk.IsEmpty()
      modifies this`core, this`free, this`nextPhysical
      ensures Agrees(g, core, free) && nextPhysical < g.physicalCapacity
      ensures core.backingCapacity == old(core.backingCapacity)
      ensures r.Err? ==> Abs(core, free) == old(Abs(core, free))
      ensures var v, dk := old(Abs(core, free)), old(core.directory[slot].key);
        && FullUnless(r, CanBind(v, dk, bk, Half(g.directoryCapacity), BlockLimit(g, core)), v)
        && (r.Ok? ==> r.value == Target(v, dk, bk) && Rebinds(v, Abs(core, free), dk, r.value))
        && (r.Ok? ==>
              Spends(v, Abs(core, free), r.value) && (Placeable(Abs(core, free), r.value) <==> CanPlace(v, dk, bk)))
        && (r.Ok? ==> Readies(v, Abs(core, free), dk, bk, FoundState(v, dk, bk)))
    {
      ghost var v, dk := Abs(core, free), core.directory[slot].key;
      HeldIsContained(core.directory, slot);
      var promoted := PromoteBlock(slot, bk);
      if promoted.Err? {
        return Err(promoted.error);
      }
      PromotedRebinds(v, Abs(core, free), dk, bk);
      PromoteSpends(v, Abs(core, free), dk, bk);
      PromoteReadies(v, Abs(core, free), dk, bk);
      return Ok(core.directory[slot].value);
    }

    /** Bind slot `dk` to `bk`, or as near as a pin allows; answers the key it is bound to. */
    method BindSlot(dk: KvKey, bk: KvKey) returns (r: Outcome<KvKey>)
      requires GeometryOk(g) && Agrees(g, core, free) && nextPhysical < g.physicalCapacity
      requires core.backingCapacity <= Half(g.blockEntryCapacity)
      requires IsPrivate(dk) && MayName(dk, bk) && !bk.IsEmpty()
      modifies this`core, this`free, this`nextPhysical
      ensures Agrees(g, core, free) && nextPhysical < g.physicalCapacity
      ensures core.backingCapacity == old(core.backingCapacity)
      ensures r.Ok? ==> r.value == Target(old(Abs(core, free)), dk, bk)
      ensures r.Ok? ==> Rebinds(old(Abs(core, free)), Abs(core, free), dk, r.value)
      ensures r.Err? ==> Abs(core, free) == old(Abs(core, free))
      ensures var v := old(Abs(core, free));
        && FullUnless(r, CanBind(v, dk, bk, Half(g.directoryCapacity), BlockLimit(g, core)), v)
        && (r.Ok? ==>
              Spends(v, Abs(core, free), r.value) && (Placeable(Abs(core, free), r.value) <==> CanPlace(v, dk, bk)))
        && (r.Ok? ==> Readies(v, Abs(core, free), dk, bk, FoundState(v, dk, bk)))
    {
      ghost var v := Abs(core, free);
      UnfilledTableHasVacancy(core.directory);
      var slot, found := Probe(core.directory, dk);
      if slot == SATURATED {
        assert false;
        return Err(CapacityExceeded);
      }
      if !found {
        var inserted := InsertBinding(slot, dk, bk);
        if inserted.Ok? {
          InsertKeepsCoherent(v, Abs(core, free), dk, bk);
          InsertSpends(v, Abs(core, free), dk, bk);
          InsertReadies(v, Abs(core, free), dk, bk);
        }
        return match inserted case Ok(_) => Ok(bk) case Err(e) => Err(e);
      }
      HeldIsContained(core.directory, slot);
      if core.directory[slot].value == bk {
        assert v.dir == v.dir[dk := bk];
        BoundSlot(v, dk);
        NothingSpent(v, bk);
        AlreadyReady(v, dk, bk);
        return Ok(bk);
      }
      r := RebindSlot(slot, bk);
    }

    /** Bring a bound block to a physical slot. A failed load leaves at most one block spilled. */
    method Reside(bk: KvKey) returns (r: Outcome<nat>)
      requires GeometryOk(g) && Agrees(g, core, free) && nextPhysical < g.physicalCapacity
      requires bk in Contents(core.blocks)
      modifies this`core, this`nextPhysical
      ensures Agrees(g, core, free) && nextPhysical < g.physicalCapacity && DirectoryKept(old(core), core)
      ensures KeepsLive(old(Abs(core, free)), Abs(core, free), {}) && KeepsPinned(old(Abs(core, free)), Abs(core, free))
      ensures |core.keys| == old(|core.keys|)
      ensures r.Ok? ==> Live(Abs(core, free), bk, r.value)
      ensures var v := old(Abs(core, free));
        && FullUnless(r, Placeable(v, bk), v)
        && (r.Ok? ==> Thrifty(v, Abs(core, free), bk) && |Abs(core, free).blk| == |v.blk|)
        && KeepsReadiness(v, Abs(core, free), {}) && Abs(core, free).blk.Keys == v.blk.Keys
    {
      ghost var v := Abs(core, free);
      r := BlockResident(bk);
      if r.Ok? {
        ResidentSpends(v, Abs(core, free), bk, r.value);
        ResidentKeepsCoherent(v, Abs(core, free), bk, r.value);
        ResidentIsAsReady(v, Abs(core, free), bk, r.value);
      } else {
        SweepKeepsCoherent(v, Abs(core, free));
        SweptIsAsReady(v, Abs(core, free));
      }
    }

    /**
     * Bind the slot of a sequence's logical block and answer the physical slot its block sits in. Whatever
     * happens, every other slot placed this epoch stays exactly where it was.
     */
    method DirectoryAcquire(sequence: nat, block: nat, bk: KvKey) returns (r: Outcome<nat>)
      requires GeometryOk(g) && Agrees(g, core, free) && nextPhysical < g.physicalCapacity
      requires core.backingCapacity <= Half(g.blockEntryCapacity)
      requires MayName(PrivateKey(g.mix, sequence, block), bk) && !bk.IsEmpty()
      modifies this`core, this`free, this`nextPhysical
      ensures Agrees(g, core, free) && nextPhysical < g.physicalCapacity
      ensures core.backingCapacity == old(core.backingCapacity)
      ensures var v, dk := old(Abs(core, free)), PrivateKey(g.mix, sequence, block);
        && (r.Ok? ==> Rebinds(v, Abs(core, free), dk, Target(v, dk, bk)) && Placed(Abs(core, free), dk, r.value))
        && (r.Err? ==> Abs(core, free) == v || Rebinds(v, Abs(core, free), dk, Target(v, dk, bk)))
        && (r == Err(CapacityExceeded) <==> !CanAcquire(v, dk, bk, Half(g.directoryCapacity), BlockLimit(g, core)))
        && (r.Err? ==> r.error == CapacityExceeded || (r.error == HookFailed && v.backingCapacity > 0))
        && (r.Ok? ==> Spends(v, Abs(core, free), Target(v, dk, bk)))
        && (r.Ok? ==> Readies(v, Abs(core, free), dk, bk, FoundState(v, dk, bk)))
        && Undisturbed(v, Abs(core, free), {dk})
    {
      ghost var v := Abs(core, free);
      var dk := PrivateKey(g.mix, sequence, block);
      var bound := BindSlot(dk, bk);
      if bound.Err? {
        NothingDisturbed(v);
        UndisturbedGrows(v, v, {}, {dk});
        return Err(bound.error);
      }
      ghost var m := Abs(core, free);
      BoundSlot(m, dk);
      r := Reside(bound.value);
      RebindsThenLive(v, m, Abs(core, free), dk, bound.value);
      ReadiesThenKeeps(v, m, Abs(core, free), dk, bk, FoundState(v, dk, bk));
      BindingDisturbs(v, Abs(core, free), dk, bk, FoundState(v, dk, bk));
      if r.Ok? {
        SpendsThenThrifty(v, m, Abs(core, free), bound.value);
      }
    }

    /** Unbind a slot and drop its reference. */
    method DirectoryRelease(sequence: nat, block: nat) returns (r: Outcome<()>)
      requires GeometryOk(g) && Agrees(g, core, free)
      modifies this`core, this`free
      ensures Agrees(g, core, free) && core.backingCapacity == old(core.backingCapacity)
      ensures r.Err? ==> core == old(core) && free == old(free) && r.error in {NotFound, Busy}
      ensures r == Err(NotFound) <==> PrivateKey(g.mix, sequence, block) !in Contents(old(core.directory))
      ensures var v, dk := old(Abs(core, free)), PrivateKey(g.mix, sequence, block);
        && (r == Err(Busy) <==> dk in v.dir && IsPinned(v, v.dir[dk]) && v.blk[v.dir[dk]].refs == 1)
        && (r.Ok? ==> BlockStored(v, v.dir[dk]) && Abs(core, free) == Dropped(v, v.dir[dk]).(dir := v.dir - {dk}))
    {
      ghost var v := Abs(core, free);
      var dk := PrivateKey(g.mix, sequence, block);
      var slot, found := Find(core.directory, dk);
      if !found {
        return Err(NotFound);
      }
      BoundSlot(v, dk);
      r := BlockDeref(core.directory[slot].value);
      if r.Err? {
        return;
      }
      ReleaseKeepsCoherent(v, dk);
      SizeAfterRemove(v.dir, dk);
      var erased := Erase(core.directory, slot);
      UnbindingIsStored(g, core, free, dk, erased);
      core := WithoutBinding(core, erased);
    }

    // ---- Transient slots -----------------------------------------------------

    /** Claim a physical slot that belongs to no block, pinned once. */
    method AcquireTransient() returns (r: Outcome<nat>)
      requires Valid()
      modifies this`core, this`nextPhysical
      ensures Valid() && KeepsPinned(old(State()), State()) && State().dir == old(State()).dir
      ensures r == Err(InvalidArgument) <==> old(core.pins).None?
      ensures r == Err(CapacityExceeded) <==> old(core.pins).Some? && !HasClaim(old(State()))
      ensures r.Err? ==> core == old(core)
      ensures r.Ok? ==> Borrows(g.mix, old(State()), State(), r.value)
    {
      if core.pins.None? {
        return Err(InvalidArgument);
      }
      ghost var v := State();
      r := SweepStored();
      SweepKeepsCoherent(v, State());
      if r.Err? {
        return;
      }
      StoredIsBased(g, core, free);
      var p, key := r.value, PrivateKey(g.mix, 0xFFFF_FFFF_FFFF_FFFF, r.value);
      ghost var u, pins := State(), core.pins.value[p := 1];
      TransientKeepsCoherent(u, p, key, pins);
      core := core.(keys := core.keys[p := key], lastUsed := core.lastUsed[p := core.epoch],
                    states := core.states[p := Transient], allocatedCount := core.allocatedCount + 1,
                    pins := Some(core.pins.value[p := 1]));
      assert State() == Assigned(u, p, key, Transient).(pins := Some(pins));
      OpenStored(g, core, free);
      assert State() == Lent(g.mix, u, p);
    }

    /** Give a transient slot back: exactly when it is one, pinned exactly once. */
    method ReleaseTransient(p: nat) returns (r: Outcome<()>)
      requires Valid()
      modifies this`core
      ensures Valid()
      ensures r.Ok? <==> IsBorrowed(g.mix, old(State()), p)
      ensures r.Ok? ==> State() == Returned(old(State()), p)
      ensures r.Err? ==> core == old(core) && r.error == InvalidArgument
    {
      StoredIsBased(g, core, free);
      if p < g.physicalCapacity && !core.keys[p].IsEmpty() {
        NoneOccupied(core.keys);
      }
      if p >= g.physicalCapacity || core.states[p] != Transient
         || core.keys[p] != PrivateKey(g.mix, 0xFFFF_FFFF_FFFF_FFFF, p) || core.allocatedCount == 0
         || core.pins.None? || core.pins.value[p] != 1 {
        return Err(InvalidArgument);
      }
      ghost var v, pins := State(), core.pins.value[p := 0];
      TransientReleaseKeepsCoherent(v, p, pins);
      core := core.(keys := core.keys[p := EMPTY_KEY], lastUsed := core.lastUsed[p := 0],
                    states := core.states[p := Missing], allocatedCount := core.allocatedCount - 1,
                    pins := Some(core.pins.value[p := 0]));
      assert State() == Cleared(v, p).(pins := Some(pins));
      OpenStored(g, core, free);
      return Ok(());
    }

    // ---- Packets -------------------------------------------------------------

    /**
     * Check a packet against the state. The counter checks never fire: only the backing capacity, the packet and
     * its shape decide.
     */
    method Validate(p: Packet) returns (r: Outcome<()>)
      requires Valid()
      ensures r == Err(InvalidArgument) <==> core.backingCapacity > Half(g.blockEntryCapacity) || !PacketOk(p)
      ensures r.Ok? <==>
        && core.backingCapacity <= Half(g.blockEntryCapacity) && PacketOk(p)
        && p.blockTokens == g.blockTokenCount && p.maxBlocks <= g.laneStride && p.active <= g.laneCapacity
      ensures r.Err? ==> r.error in {InvalidArgument, CapacityExceeded}
    {
      StoredIsBased(g, core, free);
      CountersAreBounded(g, core, free);
      if (core.backingCapacity == 0) != core.freeNext.None? || core.backingCapacity > Half(g.blockEntryCapacity)
         || core.blockCount > BlockLimit(g, core) || core.directoryCount > Half(g.directoryCapacity)
         || core.allocatedCount > g.physicalCapacity || core.swappedCount > core.blockCount || !PacketOk(p) {
        return Err(InvalidArgument);
      }
      if p.blockTokens != g.blockTokenCount || p.maxBlocks > g.laneStride || p.active > g.laneCapacity {
        return Err(CapacityExceeded);
      }
      return Ok(());
    }

    /** Whether a slot is bound. */
    method HoldsSlot(dk: KvKey) returns (held: bool)
      requires GeometryOk(g) && Agrees(g, core, free) && IsPrivate(dk)
      ensures held <==> dk in State().dir
    {
      var _, found := Find(core.directory, dk);
      held := found;
    }

    /** Whether a block exists. */
    method HoldsBlock(bk: KvKey) returns (held: bool)
      requires GeometryOk(g) && Agrees(g, core, free) && !bk.IsEmpty()
      ensures held <==> bk in State().blk
    {
      StoredIsBased(g, core, free);
      var _, found := Find(core.blocks, bk);
      held := found;
    }

    /** Count what one lane would add: slots not bound and blocks that do not exist. */
    method CountLane(p: Packet, lane: nat) returns (entries: nat, blocks: nat)
      requires Valid() && PacketOk(p) && lane < p.active
      ensures entries == NewSlots(State().dir, g.mix, p, lane, LaneBlocks(p, lane))
      ensures blocks == NewBlocks(State().blk, g.mix, table.sharing, p, lane, LaneBlocks(p, lane))
    {
      entries, blocks := 0, 0;
      var count := LaneBlocks(p, lane);
      var row, frontier := LaneKeys(table.sharing, lane, count), CommittedFrontier(p.lanes[lane]);
      var end := 0;
      for block := 0 to count
        invariant end == EndToken(block, p.blockTokens)
        invariant entries == NewSlots(State().dir, g.mix, p, lane, block)
        invariant blocks == NewBlocks(State().blk, g.mix, table.sharing, p, lane, block)
      {
        end := end + p.blockTokens;
        var bound := HoldsSlot(SlotKey(g.mix, p, lane, block));
        if !bound {
          entries := entries + 1;
        }
        var present := HoldsBlock(SelectKey(g.mix, row, p.lanes[lane].sequence, block, end, frontier));
        if !present {
          blocks := blocks + 1;
        }
      }
    }

    /** Count what the packet would add, lane by lane. */
    method CountAdmission(p: Packet) returns (r: Outcome<(nat, nat)>)
      requires Valid() && PacketOk(p)
      ensures r.Ok? <==> LanesFit(p, p.active) && LanesBelow(p, p.active, g.physicalCapacity)
      ensures r.Ok? ==> r.value.0 == AllNewSlots(State().dir, g.mix, p, p.active)
      ensures r.Ok? ==> r.value.1 == AllNewBlocks(State().blk, g.mix, table.sharing, p, p.active)
      ensures r.Err? ==> r.error == CapacityExceeded
    {
      var entries: nat, blocks: nat := 0, 0;
      for lane := 0 to p.active
        invariant LanesFit(p, lane) && LanesBelow(p, lane, g.physicalCapacity)
        invariant entries == AllNewSlots(State().dir, g.mix, p, lane)
        invariant blocks == AllNewBlocks(State().blk, g.mix, table.sharing, p, lane)
      {
        var count := LaneBlocks(p, lane);
        if count == 0 || count > p.maxBlocks || count > g.physicalCapacity {
          LanesFailAt(p, p.active, lane, g.physicalCapacity);
          return Err(CapacityExceeded);
        }
        var e, b := CountLane(p, lane);
        entries, blocks := entries + e, blocks + b;
      }
      return Ok((entries, blocks));
    }

    /** The blocks of all lanes together. */
    method CountBlocks(p: Packet) returns (r: Outcome<nat>)
      requires PacketOk(p)
      ensures r.Ok? <==> LanesFit(p, p.active)
      ensures r.Ok? ==> r.value == TotalBlocks(p, p.active)
    {
      var total: nat := 0;
      for lane := 0 to p.active
        invariant total == TotalBlocks(p, lane) && LanesFit(p, lane)
      {
        var count := LaneBlocks(p, lane);
        if count == 0 || count > p.maxBlocks {
          if LanesFit(p, p.active) {
            LanesFitEach(p, p.active, lane);
          }
          return Err(CapacityExceeded);
        }
        total := total + count;
      }
      return Ok(total);
    }

    /** Reject a packet that cannot fit before anything changes: exactly the packets that do not fit. */
    method AdmitPacket(p: Packet) returns (r: Outcome<()>)
      requires Valid() && PacketOk(p)
      ensures r.Ok? <==> Fits(State(), g.mix, table.sharing, p, Half(g.directoryCapacity), g.physicalCapacity)
      ensures r.Err? ==> r.error == CapacityExceeded
    {
      var total := CountBlocks(p);
      if total.Err? {
        return Err(CapacityExceeded);
      }
      if core.directoryCount + total.value <= Half(g.directoryCapacity) && total.value <= g.physicalCapacity {
        return Ok(());
      }
      var counted := CountAdmission(p);
      if counted.Err? {
        return Err(CapacityExceeded);
      }
      if core.directoryCount > Half(g.directoryCapacity)
         || counted.value.0 > Half(g.directoryCapacity) - core.directoryCount || counted.value.1 > g.physicalCapacity {
        return Err(CapacityExceeded);
      }
      return Ok(());
    }

    // ---- Building the block table --------------------------------------------

    /** Set the state of an occupied slot that is not transient. */
    method SetState(p: nat, state: EntryState)
      requires GeometryOk(g) && Agrees(g, core, free) && p < |core.states| == |core.keys|
      requires !core.keys[p].IsEmpty() && core.states[p] != Transient && state != Transient
      modifies this`core
      ensures Agrees(g, core, free) && State() == old(State()).(states := old(core.states)[p := state])
    {
      ghost var v, c := State(), core;
      StoredIsBased(g, core, free);
      core := core.(states := core.states[p := state]);
      SlotsAreStored(g, c, core, free);
      SamePlacesKeepCoherent(v, State());
    }

    /** Count one block's readiness. */
    method Account(state: EntryState)
      modifies this`table
      ensures table == Counted(old(table), state)
    {
      table := match state
        case Resident => table.(resident := table.resident + 1)
        case InFlight => table.(inFlight := table.inFlight + 1)
        case _ => table.(missing := table.missing + 1);
    }

    /** Settle the readiness of a cell's block, which sits in physical slot `q`. */
    method SettleCell(p: Packet, lane: nat, block: nat, ghost key: KvKey, q: nat, ghost v: View)
      returns (r: Outcome<()>)
      requires GeometryOk(g) && Agrees(g, core, free) && IsCell(p, lane, block)
      requires CellBound(g.mix, p, v, State(), lane, block, key, q)
      modifies this`core, this`table
      ensures Agrees(g, core, free) && core.backingCapacity == old(core.backingCapacity)
      ensures table == old(table).(missing := table.missing, inFlight := table.inFlight, resident := table.resident)
      ensures r.Ok? ==> CellBuilt(g.mix, p, v, State(), lane, block, key, q)
      ensures r.Ok? ==> table == Counted(old(table), StateOf(State(), State().dir[SlotKey(g.mix, p, lane, block)]))
      ensures r.Err? <==> Settling(p, lane, block, FoundState(v, SlotKey(g.mix, p, lane, block), key)).None?
      ensures r.Err? ==> r.error == Busy && !p.prefill && SamePins(v, State()) && core == old(core)
    {
      ghost var m := State();
      CellIsFound(g.mix, p, v, m, lane, block, key, q);
      var state := ResolveEntryState(p.prefill, block + 1 == LaneBlocks(p, lane), core.states[q]);
      Account(match state case Some(s) => s case None => core.states[q]);
      if state.None? {
        return Err(Busy);
      }
      SetState(q, state.value);
      CellIsBuilt(g.mix, p, v, m, State(), lane, block, key, q, state.value);
      return Ok(());
    }

    /** Acquire one cell's block and settle its readiness; answers the physical slot. */
    method BuildCell(p: Packet, lane: nat, block: nat, key: KvKey) returns (r: Outcome<nat>)
      requires GeometryOk(g) && Agrees(g, core, free) && nextPhysical < g.physicalCapacity
      requires core.backingCapacity <= Half(g.blockEntryCapacity)
      requires IsCell(p, lane, block) && MayName(SlotKey(g.mix, p, lane, block), key) && !key.IsEmpty()
      modifies this`core, this`free, this`nextPhysical, this`table
      ensures Agrees(g, core, free) && nextPhysical < g.physicalCapacity
      ensures core.backingCapacity == old(core.backingCapacity)
      ensures table == old(table).(missing := table.missing, inFlight := table.inFlight, resident := table.resident)
      ensures SamePins(old(State()), State())
      ensures r.Ok? ==> CellBuilt(g.mix, p, old(State()), State(), lane, block, key, r.value)
      ensures r.Ok? ==> table == Counted(old(table), StateOf(State(), State().dir[SlotKey(g.mix, p, lane, block)]))
      ensures var v, dk := old(State()), SlotKey(g.mix, p, lane, block);
        && (r == Err(CapacityExceeded) <==> !CanAcquire(v, dk, key, Half(g.directoryCapacity), BlockLimit(g, core)))
        && (r == Err(Busy) ==> Settling(p, lane, block, FoundState(v, dk, key)).None?)
      ensures MayFail(r, p, core.backingCapacity)
      ensures Undisturbed(old(State()), State(), {SlotKey(g.mix, p, lane, block)})
    {
      ghost var v := State();
      r := DirectoryAcquire(p.lanes[lane].sequence, block, key);
      if r.Err? {
        return;
      }
      var settled := SettleCell(p, lane, block, key, r.value, v);
      if settled.Err? {
        return Err(settled.error);
      }
      CellDisturbs(g.mix, p, v, State(), lane, block, key, r.value);
    }

    /** Acquire one cell's block and write its physical slot into the table. */
    method FillCell(p: Packet, lane: nat, block: nat, key: KvKey, ghost t: Table, ghost u: View, ghost all: nat,
                    ghost rest: nat)
      returns (r: Outcome<()>)
      requires Buildable(g, core, free, nextPhysical, table)
      requires PacketOk(p) && IsCell(p, lane, block) && p.active <= g.laneCapacity && p.maxBlocks <= g.laneStride
      requires LanesFit(p, lane + 1) && table.sharing == t.sharing && key == WantedKey(g.mix, t.sharing, p, lane, block)
      requires Filling(g, p, t, table, u, State(), lane, block)
      requires Carries(g, t.sharing, p, u, State(), all, rest + 1)
      modifies this`core, this`free, this`nextPhysical, this`table
      ensures Buildable(g, core, free, nextPhysical, table) && core.backingCapacity == old(core.backingCapacity)
      ensures SamePins(u, State()) && table.sharing == t.sharing
      ensures table == t.(cells := table.cells, missing := table.missing, inFlight := table.inFlight,
                          resident := table.resident)
      ensures r.Ok? ==> Filling(g, p, t, table, u, State(), lane, block + 1)
      ensures MayFail(r, p, core.backingCapacity) && Excused(r, g, t.sharing, p, u, all)
      ensures r.Ok? ==> Carries(g, t.sharing, p, u, State(), all, rest)
      ensures r.Err? ==> Confined(g.mix, p, u, State(), LaneSlots(g.mix, p, lane, LaneBlocks(p, lane)))
    {
      ghost var v, s := State(), table;
      OpenBuildable(g, core, free, nextPhysical, table);
      OpenFilling(g, p, t, s, u, v, lane, block);
      var physical := BuildCell(p, lane, block, key);
      SamePinsChain(u, v, State());
      CellCarries(g, t.sharing, p, physical, u, v, State(), lane, block, all, rest);
      if physical.Err? {
        OpenBuildable(g, core, free, nextPhysical, table);
        LaneBreaks(g.mix, t.sharing, p, u, v, State(), lane, block);
        return Err(physical.error);
      }
      FillingGoesOn(g, p, t, s, u, v, State(), lane, block, physical.value, table.inFlight, table.resident);
      table := table.(cells := table.cells[Cell(g.laneStride, lane, block) := physical.value]);
      OpenBuildable(g, core, free, nextPhysical, table);
      return Ok(());
    }

    /** Fill a lane's cells, one after the other. */
    method FillCells(p: Packet, lane: nat, ghost t: Table, ghost u: View, ghost all: nat, ghost rest: nat)
      returns (r: Outcome<()>)
      requires Buildable(g, core, free, nextPhysical, table)
      requires PacketOk(p) && lane < p.active <= g.laneCapacity && p.maxBlocks <= g.laneStride && LanesFit(p, lane + 1)
      requires all == LaneBlocks(p, lane) + rest && table.sharing == t.sharing
      requires Filling(g, p, t, table, u, State(), lane, 0) && Carries(g, t.sharing, p, u, State(), all, all)
      modifies this`core, this`free, this`nextPhysical, this`table
      ensures Buildable(g, core, free, nextPhysical, table) && core.backingCapacity == old(core.backingCapacity)
      ensures r.Ok? ==> Filling(g, p, t, table, u, State(), lane, LaneBlocks(p, lane))
      ensures r.Ok? ==> Carries(g, t.sharing, p, u, State(), all, rest)
      ensures r.Err? ==>
        && SamePins(u, State())
        && table == t.(cells := table.cells, missing := table.missing, inFlight := table.inFlight,
                       resident := table.resident)
        && Confined(g.mix, p, u, State(), LaneSlots(g.mix, p, lane, LaneBlocks(p, lane)))
      ensures MayFail(r, p, core.backingCapacity) && Excused(r, g, t.sharing, p, u, all)
    {
      var count, frontier := LaneBlocks(p, lane), CommittedFrontier(p.lanes[lane]);
      var row := LaneKeys(table.sharing, lane, count);
      ghost var left := all;
      var end := 0;
      for block := 0 to count
        invariant Buildable(g, core, free, nextPhysical, table) && core.backingCapacity == old(core.backingCapacity)
        invariant end == EndToken(block, p.blockTokens) && table.sharing == t.sharing
        invariant Filling(g, p, t, table, u, State(), lane, block)
        invariant left == count - block + rest && Carries(g, t.sharing, p, u, State(), all, left)
      {
        end := end + p.blockTokens;
        left := left - 1;
        r := FillCell(p, lane, block, SelectKey(g.mix, row, p.lanes[lane].sequence, block, end, frontier), t, u, all,
                      left);
        if r.Err? {
          return;
        }
      }
      return Ok(());
    }

    /** Fill the cells of one lane. */
    method FillLane(p: Packet, lane: nat, ghost all: nat, ghost rest: nat) returns (r: Outcome<()>)
      requires Buildable(g, core, free, nextPhysical, table)
      requires PacketOk(p) && lane < p.active <= g.laneCapacity && p.maxBlocks <= g.laneStride && LanesFit(p, lane + 1)
      requires all == LaneBlocks(p, lane) + rest
      requires CellsDone(g, p, table, State(), lane, 0)
      modifies this`core, this`free, this`nextPhysical, this`table
      ensures Buildable(g, core, free, nextPhysical, table) && core.backingCapacity == old(core.backingCapacity)
      ensures SamePins(old(State()), State())
      ensures table == old(table).(cells := table.cells, missing := table.missing, inFlight := table.inFlight,
                                   resident := table.resident)
      ensures r.Ok? ==> LaneFilled(g, p, old(table), table, old(State()), State(), lane, LaneBlocks(p, lane))
      ensures MayFail(r, p, core.backingCapacity)
      ensures r.Ok? ==> Carries(g, table.sharing, p, old(State()), State(), all, rest)
      ensures Excused(r, g, table.sharing, p, old(State()), all)
      ensures r.Err? ==> Confined(g.mix, p, old(State()), State(), LaneSlots(g.mix, p, lane, LaneBlocks(p, lane)))
    {
      ghost var t, u := table, State();
      FillingStarts(g, p, t, u, lane);
      r := FillCells(p, lane, t, u, all, rest);
      if r.Ok? {
        OpenFilling(g, p, t, table, u, State(), lane, LaneBlocks(p, lane));
      }
    }

    /** Build one lane of the table. */
    method BuildLane(p: Packet, lane: nat, ghost rest: nat) returns (r: Outcome<()>)
      requires Valid() && core.backingCapacity <= Half(g.blockEntryCapacity)
      requires PacketOk(p) && lane < p.active <= g.laneCapacity && p.maxBlocks <= g.laneStride && LanesFit(p, lane)
      requires CellsDone(g, p, table, State(), lane, 0)
      modifies this`core, this`free, this`nextPhysical, this`table
      ensures Valid() && core.backingCapacity == old(core.backingCapacity)
      ensures table.sharing == old(table.sharing) && table.generation == old(table.generation)
      ensures SamePins(old(State()), State())
      ensures r.Ok? ==> LanesFit(p, lane + 1) && table.counts == old(table.counts)[lane := LaneBlocks(p, lane)]
      ensures r.Ok? ==> CellsDone(g, p, table, State(), lane, LaneBlocks(p, lane))
      ensures r.Ok? ==> LaneFollows(g.mix, table.sharing, p, old(State()), State(), lane, LaneBlocks(p, lane))
      ensures MayFail(r, p, core.backingCapacity)
      ensures r.Ok? ==> Carries(g, table.sharing, p, old(State()), State(), LaneBlocks(p, lane) + rest, rest)
      ensures LaneFits(p, lane) ==> Excused(r, g, table.sharing, p, old(State()), LaneBlocks(p, lane) + rest)
      ensures r.Ok? ==> table.missing == old(table.missing)
      ensures r.Ok? ==>
        table.inFlight + table.resident == old(table.inFlight) + old(table.resident) + LaneBlocks(p, lane)
      ensures r.Err? ==> Confined(g.mix, p, old(State()), State(), LaneSlots(g.mix, p, lane, LaneBlocks(p, lane)))
    {
      var count := LaneBlocks(p, lane);
      if count == 0 || count > p.maxBlocks {
        NothingDisturbed(State());
        UndisturbedGrows(State(), State(), {}, LaneSlots(g.mix, p, lane, count));
        return Err(CapacityExceeded);
      }
      table := table.(counts := table.counts[lane := count]);
      OpenBuildable(g, core, free, nextPhysical, table);
      r := FillLane(p, lane, LaneBlocks(p, lane) + rest, rest);
      OpenBuildable(g, core, free, nextPhysical, table);
    }

    /** Start a build: a new epoch, and no readiness counted yet. */
    method BeginEpoch(lanes: nat)
      requires Valid() && lanes <= g.laneCapacity
      modifies this`core, this`table
      ensures Valid() && core.backingCapacity == old(core.backingCapacity)
      ensures State() == old(State()).(epoch := NextEpoch(old(core.epoch)))
      ensures table == old(table).(counts := table.counts, missing := 0, inFlight := 0, resident := 0)
      ensures forall l :: 0 <= l < g.laneCapacity ==> table.counts[l] == if l < lanes then 0 else old(table.counts)[l]
    {
      ghost var v, c := State(), core;
      StoredIsBased(g, core, free);
      table := table.(counts := seq(lanes, _ => 0) + table.counts[lanes..], missing := 0, inFlight := 0, resident := 0);
      core := core.(epoch := NextEpoch(core.epoch));
      SlotsAreStored(g, c, core, free);
      SamePlacesKeepCoherent(v, State());
    }

    /** Build the lane after the first `lane` ones. */
    method BuildNext(p: Packet, lane: nat, ghost u: View, ghost total: nat) returns (r: Outcome<()>)
      requires Valid() && core.backingCapacity <= Half(g.blockEntryCapacity)
      requires PacketOk(p) && lane < p.active <= g.laneCapacity && p.maxBlocks <= g.laneStride
      requires SamePins(u, State()) && Building(g, p, table, State(), lane)
      requires PacketFollows(g.mix, table.sharing, p, u, State(), lane)
      requires Carries(g, table.sharing, p, u, State(), total, RestBlocks(p, lane)) && LaneFits(p, lane)
      modifies this`core, this`free, this`nextPhysical, this`table
      ensures Valid() && core.backingCapacity == old(core.backingCapacity)
      ensures table.generation == old(table.generation) && table.sharing == old(table.sharing) && SamePins(u, State())
      ensures r.Ok? ==> Building(g, p, table, State(), lane + 1)
      ensures r.Ok? ==> PacketFollows(g.mix, table.sharing, p, u, State(), lane + 1)
      ensures MayFail(r, p, core.backingCapacity) && Excused(r, g, table.sharing, p, u, total)
      ensures r.Ok? ==> Carries(g, table.sharing, p, u, State(), total, RestBlocks(p, lane + 1))
      ensures r.Err? ==> Confined(g.mix, p, u, State(), PacketSlots(g.mix, p, p.active))
    {
      ghost var t, v := table, State();
      OpenBuilding(g, p, table, State(), lane);
      r := BuildLane(p, lane, RestBlocks(p, lane + 1));
      SamePinsChain(u, v, State());
      if r.Ok? {
        LaneIsBuilt(g, p, t, table, v, State(), lane);
        PacketGoesOn(g.mix, t.sharing, p, u, v, State(), lane);
      } else {
        PacketBreaks(g.mix, t.sharing, p, u, v, State(), lane);
      }
    }

    /** Build every lane. */
    method BuildLanes(p: Packet) returns (r: Outcome<()>)
      requires Valid() && core.backingCapacity <= Half(g.blockEntryCapacity)
      requires PacketOk(p) && p.active <= g.laneCapacity && p.maxBlocks <= g.laneStride && LanesFit(p, p.active)
      requires table.missing == table.inFlight == table.resident == 0
      modifies this`core, this`free, this`nextPhysical, this`table
      ensures Valid() && table.generation == old(table.generation) && table.sharing == old(table.sharing)
      ensures SamePins(old(State()), State())
      ensures r.Ok? ==> Built(g, p, table, State(), p.active)
      ensures r.Ok? ==> PacketFollows(g.mix, table.sharing, p, old(State()), State(), p.active)
      ensures core.backingCapacity == old(core.backingCapacity) && MayFail(r, p, core.backingCapacity)
      ensures Excused(r, g, table.sharing, p, old(State()), TotalBlocks(p, p.active))
      ensures r.Err? ==> Confined(g.mix, p, old(State()), State(), PacketSlots(g.mix, p, p.active))
    {
      ghost var u, total := State(), TotalBlocks(p, p.active);
      PacketStarts(g.mix, table.sharing, p, u);
      OpenBuilding(g, p, table, u, 0);
      RestIsTotal(p, 0);
      for lane := 0 to p.active
        invariant Valid() && core.backingCapacity == old(core.backingCapacity)
        invariant table.generation == old(table.generation) && table.sharing == old(table.sharing)
        invariant SamePins(u, State()) && Building(g, p, table, State(), lane)
        invariant PacketFollows(g.mix, table.sharing, p, u, State(), lane)
        invariant Carries(g, table.sharing, p, u, State(), total, RestBlocks(p, lane))
      {
        LanesFitEach(p, p.active, lane);
        r := BuildNext(p, lane, u, total);
        if r.Err? {
          return;
        }
      }
      OpenBuilding(g, p, table, State(), p.active);
      return Ok(());
    }

    /**
     * Build the block table of a packet. On success every cell names the physical slot that holds its block when
     * the build ends, under the key the cell asked for unless a pin holds it, and every block is ready or in
     * flight. On every outcome the state stays valid, and no pinned block of the same generation moves.
     */
    method BuildTable(p: Packet) returns (r: Outcome<()>)
      requires Valid()
      modifies this`core, this`free, this`nextPhysical, this`table
      ensures Valid() && table.sharing == old(table.sharing)
      ensures p.generation == old(table.generation) ==> SamePins(old(State()), State())
      ensures 0 < p.generation < old(table.generation) ==> r.Err?
      ensures r.Ok? ==> table.generation == p.generation >= old(table.generation) && PacketOk(p)
      ensures r.Ok? ==> Built(g, p, table, State(), p.active)
      ensures r.Ok? ==> Binds(g.mix, table.sharing, p, old(State()), p.generation == old(table.generation), State())
      ensures r == Err(InvalidArgument) <==> old(core).backingCapacity > Half(g.blockEntryCapacity) || !PacketOk(p)
      ensures r == Err(NotFound) <==> Accepts(g, old(core).backingCapacity, p) && p.generation < old(table.generation)
      ensures !Accepts(g, old(core).backingCapacity, p) ==> r == Err(InvalidArgument) || r == Err(CapacityExceeded)
      ensures Accepts(g, old(core).backingCapacity, p) && p.generation >= old(table.generation) ==>
        && MayFail(r, p, old(core).backingCapacity)
        && (r == Err(CapacityExceeded) ==> !RoomToBuild(g, old(State()), p.generation == old(table.generation), p))
        && (r == Err(Busy) ==>
              !Warm(g.mix, table.sharing, p, Kept(old(State()), p.generation == old(table.generation))))
        && (r.Err? ==>
              Confined(g.mix, p, Kept(old(State()), p.generation == old(table.generation)), State(),
                       PacketSlots(g.mix, p, p.active)))
      ensures !Accepts(g, old(core).backingCapacity, p) || p.generation < old(table.generation) ==> core == old(core)
    {
      r := Validate(p);
      if r.Err? {
        return;
      }
      var selected := AdvanceGeneration(p.generation);
      if selected.Err? {
        return Err(SelectionError(selected.error));
      }
      ghost var kept := p.generation == old(table.generation);
      if RoomToBuild(g, old(State()), kept, p) {
        RoomAtStart(g, core, free, old(State()), kept, table.sharing, p);
      }
      r := AdmitPacket(p);
      ghost var m := State();
      if r.Err? {
        NothingDisturbed(m);
        UndisturbedGrows(m, m, {}, PacketSlots(g.mix, p, p.active));
        StartIsSame(g.mix, p, old(State()), kept, m, m.epoch, m, PacketSlots(g.mix, p, p.active));
        return;
      }
      BeginEpoch(p.active);
      WarmSame(g.mix, table.sharing, p, Kept(old(State()), kept), State());
      r := BuildLanes(p);
      SamePinsAcrossEpochs(m, State(), NextEpoch(m.epoch));
      if r.Ok? {
        PacketEnds(g.mix, table.sharing, p, old(State()), kept, m, NextEpoch(m.epoch), State());
      } else {
        StartIsSame(g.mix, p, old(State()), kept, m, NextEpoch(m.epoch), State(), PacketSlots(g.mix, p, p.active));
      }
    }

    // ---- Committing, cancelling, releasing -----------------------------------

    /** The device writes into physical slots. */
    method Compute(data: Tier)
      requires Valid()
      modifies this`core
      ensures Valid() && core == old(core).(gpu := old(core.gpu) + data)
    {
      ghost var v, c := State(), core;
      StoredIsBased(g, core, free);
      DataKeepsCoherent(v, core.gpu + data);
      core := core.(gpu := core.gpu + data);
      assert State() == v.(gpu := core.gpu);
      SlotsAreStored(g, c, core, free);
    }

    /** The block record a sequence slot names. A bound slot always has one. */
    method SequenceBlock(sequence: nat, block: nat) returns (slot: Option<nat>)
      requires GeometryOk(g) && Agrees(g, core, free)
      ensures var dk := PrivateKey(g.mix, sequence, block);
        && (slot.None? <==> dk !in State().dir)
        && (slot.Some? ==>
              && BlockStored(State(), State().dir[dk]) && slot.value < |core.blocks|
              && core.blocks[slot.value] == Held(State().dir[dk], State().blk[State().dir[dk]]))
    {
      ghost var v := State();
      var dk := PrivateKey(g.mix, sequence, block);
      var at, found := Find(core.directory, dk);
      if !found {
        return None;
      }
      BoundSlot(v, dk);
      StoredIsBased(g, core, free);
      var index, present := Find(core.blocks, core.directory[at].value);
      return Some(index);
    }

    /** Mark the block of a cell resident and used. A swapped block is refused. */
    method MarkCell(sequence: nat, block: nat) returns (r: Outcome<()>)
      requires Valid()
      modifies this`core
      ensures Valid() && core.backingCapacity == old(core.backingCapacity)
      ensures var dk := PrivateKey(g.mix, sequence, block);
        && Marks(old(State()), State(), if r.Ok? then {dk} else {})
        && (r.Ok? <==> dk in State().dir && State().dir[dk] in State().blk && State().blk[State().dir[dk]].onGpu)
    {
      ghost var v, c := State(), core;
      NothingMarked(v);
      var slot := SequenceBlock(sequence, block);
      if slot.None? {
        return Err(NotFound);
      }
      var p := core.blocks[slot.value].value.physical;
      if p == NO_BLOCK {
        return Err(Internal);
      }
      core := core.(states := core.states[p := Resident], lastUsed := core.lastUsed[p := core.epoch]);
      SlotsAreStored(g, c, core, free);
      SamePlacesKeepCoherent(v, State());
      OneIsMarked(v, State(), PrivateKey(g.mix, sequence, block), p);
      return Ok(());
    }

    /** Mark every block of a lane; `marked` are the slots whose blocks are marked when a cell fails. */
    method MarkLane(p: Packet, lane: nat) returns (r: Outcome<()>, ghost marked: set<KvKey>)
      requires Valid() && PacketOk(p) && lane < p.active
      modifies this`core
      ensures Valid() && core.backingCapacity == old(core.backingCapacity)
      ensures Marks(old(State()), State(), marked) && marked <= LaneSlots(g.mix, p, lane, LaneBlocks(p, lane))
      ensures r.Ok? <==> LaneFits(p, lane) && LaneOnGpu(g.mix, p, old(State()), lane, LaneBlocks(p, lane))
      ensures r.Ok? ==> marked == LaneSlots(g.mix, p, lane, LaneBlocks(p, lane))
    {
      var count := LaneBlocks(p, lane);
      ghost var v := State();
      NothingMarked(v);
      marked := {};
      if count == 0 || count > p.maxBlocks {
        return Err(CapacityExceeded), marked;
      }
      for block := 0 to count
        invariant Valid() && core.backingCapacity == old(core.backingCapacity)
        invariant marked == LaneSlots(g.mix, p, lane, block) && Marks(v, State(), marked)
        invariant LaneOnGpu(g.mix, p, v, lane, block)
      {
        ghost var u := State();
        r := MarkCell(p.lanes[lane].sequence, block);
        if r.Err? {
          MarksChain(v, u, State(), marked, {});
          LaneOnGpuFails(g.mix, p, v, lane, count, block);
          SlotsGrow(g.mix, p.lanes[lane].sequence, block, count);
          return r, marked + {};
        }
        MarksChain(v, u, State(), marked, {SlotKey(g.mix, p, lane, block)});
        marked := marked + {SlotKey(g.mix, p, lane, block)};
      }
      return Ok(()), marked;
    }

    /** Mark the blocks of every lane resident. */
    method MarkLanes(p: Packet) returns (r: Outcome<()>, ghost marked: set<KvKey>)
      requires Valid() && PacketOk(p)
      modifies this`core
      ensures Valid() && core.backingCapacity == old(core.backingCapacity) && Marks(old(State()), State(), marked)
      ensures r.Ok? <==> LanesFit(p, p.active) && LanesOnGpu(g.mix, p, old(State()), p.active)
      ensures r.Ok? ==> marked == PacketSlots(g.mix, p, p.active)
      ensures marked <= PacketSlots(g.mix, p, p.active)
    {
      ghost var v := State();
      NothingMarked(v);
      marked := {};
      for lane := 0 to p.active
        invariant Valid() && core.backingCapacity == old(core.backingCapacity) && LanesFit(p, lane)
        invariant marked == PacketSlots(g.mix, p, lane) && Marks(v, State(), marked)
        invariant LanesOnGpu(g.mix, p, v, lane)
      {
        ghost var u, more := State(), {};
        r, more := MarkLane(p, lane);
        LaneOnGpuSame(g.mix, p, v, u, lane, LaneBlocks(p, lane));
        MarksChain(v, u, State(), marked, more);
        PacketSlotsGrow(g.mix, p, lane + 1, p.active);
        if r.Err? {
          LanesFailToMark(g.mix, p, v, p.active, lane);
          return r, marked + more;
        }
        marked := marked + more;
      }
      return Ok(()), marked;
    }

    /** Mark every block of a packet resident; `marked` are the slots whose blocks are marked. */
    method MarkTable(p: Packet) returns (r: Outcome<()>, ghost marked: set<KvKey>)
      requires Valid()
      modifies this`core
      ensures Valid() && Marks(old(State()), State(), marked)
      ensures r.Ok? <==>
        && Accepts(g, core.backingCapacity, p) && p.generation == table.generation
        && LanesFit(p, p.active) && LanesOnGpu(g.mix, p, old(State()), p.active)
      ensures r.Ok? ==> marked == PacketSlots(g.mix, p, p.active)
      ensures r.Err? ==> marked == {} || (PacketOk(p) && marked <= PacketSlots(g.mix, p, p.active))
    {
      NothingMarked(State());
      marked := {};
      r := Validate(p);
      if r.Err? {
        return;
      }
      if p.generation != table.generation {
        return Err(NotFound), marked;
      }
      r, marked := MarkLanes(p);
    }

    /** Mark the backing copy of a cell's block stale. */
    method InvalidateCell(sequence: nat, block: nat)
      requires Valid()
      requires var dk := PrivateKey(g.mix, sequence, block);
        dk in State().dir && State().dir[dk] in State().blk && State().blk[State().dir[dk]].onGpu
      modifies this`core
      ensures Valid() && GoesStale(old(State()), State(), {PrivateKey(g.mix, sequence, block)})
    {
      ghost var v := State();
      var slot := SequenceBlock(sequence, block);
      var record := core.blocks[slot.value].value.(backingValid := false);
      UpdateKeepsCoherent(v, core.blocks[slot.value].key, record);
      RecordIsStored(g, core, free, slot.value, record);
      core := WithRecord(core, slot.value, record);
      OneGoesStale(v, State(), PrivateKey(g.mix, sequence, block));
    }

    /** Mark stale the blocks of cells `lo .. hi` of a lane. */
    method InvalidateRange(p: Packet, lane: nat, lo: nat, hi: nat)
      requires Valid() && lane < |p.lanes| && hi <= LaneBlocks(p, lane)
      requires LaneOnGpu(g.mix, p, State(), lane, LaneBlocks(p, lane))
      modifies this`core
      ensures Valid() && GoesStale(old(State()), State(), SlotsBetween(g.mix, p, lane, lo, hi))
    {
      ghost var v := State();
      NothingStale(v);
      assert SlotsBetween(g.mix, p, lane, lo, lo) == {};
      var block := lo;
      while block < hi
        invariant Valid() && lo <= block && (block <= hi || block == lo)
        invariant GoesStale(v, State(), SlotsBetween(g.mix, p, lane, lo, block))
      {
        ghost var u := State();
        LaneOnGpuCell(g.mix, p, v, lane, LaneBlocks(p, lane), block);
        InvalidateCell(p.lanes[lane].sequence, block);
        StaleChain(v, u, State(), SlotsBetween(g.mix, p, lane, lo, block), {SlotKey(g.mix, p, lane, block)});
        OneMoreBetween(g.mix, p, lane, lo, block);
        block := block + 1;
      }
      assert hi < lo ==> SlotsBetween(g.mix, p, lane, lo, hi) == {};
    }

    /** Mark stale the blocks a lane has written. */
    method InvalidateLane(p: Packet, lane: nat) returns (r: Outcome<()>)
      requires Valid() && PacketOk(p) && lane < p.active && p.writtenPositions > 0
      requires LaneOnGpu(g.mix, p, State(), lane, LaneBlocks(p, lane))
      modifies this`core
      ensures Valid()
      ensures r.Ok? <==> WriteEnd(p.lanes[lane].position, p.writtenPositions) < p.lanes[lane].contextTokens
      ensures r.Err? ==> State() == old(State())
      ensures r.Ok? ==>
        GoesStale(old(State()), State(),
                  SlotsBetween(g.mix, p, lane, FirstWritten(p, lane), LastWritten(p, lane) + 1))
    {
      var end := WriteEnd(p.lanes[lane].position, p.writtenPositions);
      if end >= p.lanes[lane].contextTokens {
        return Err(InvalidArgument);
      }
      PositionIsCovered(end, p.lanes[lane].contextTokens, p.blockTokens);
      InvalidateRange(p, lane, FirstWritten(p, lane), LastWritten(p, lane) + 1);
      return Ok(());
    }

    /** Mark stale the blocks the next lane has written. */
    method InvalidateNext(p: Packet, lane: nat, ghost v: View) returns (r: Outcome<()>)
      requires Hale(g, core, free, nextPhysical, table) && PacketOk(p) && lane < p.active && p.writtenPositions > 0
      requires LanesOnGpu(g.mix, p, v, p.active) && GoingStale(v, State(), WrittenSlots(g.mix, p, lane))
      requires LanesWrite(p, lane)
      modifies this`core
      ensures Hale(g, core, free, nextPhysical, table)
      ensures r.Ok? ==> LanesWrite(p, lane + 1) && GoingStale(v, State(), WrittenSlots(g.mix, p, lane + 1))
      ensures r.Err? ==> !LanesWrite(p, p.active) && State() == old(State())
    {
      ghost var u, written := State(), WrittenSlots(g.mix, p, lane);
      OpenHale(g, core, free, nextPhysical, table);
      OpenStale(v, u, written);
      StaleKeepsResidence(v, u, written);
      LanesOnGpuStay(g.mix, p, v, u, p.active);
      LanesOnGpuLane(g.mix, p, u, p.active, lane);
      r := InvalidateLane(p, lane);
      OpenHale(g, core, free, nextPhysical, table);
      if r.Err? {
        LanesFailToWrite(p, p.active, lane);
        return;
      }
      StaleChain(v, u, State(), written,
                 SlotsBetween(g.mix, p, lane, FirstWritten(p, lane), LastWritten(p, lane) + 1));
      OpenStale(v, State(), WrittenSlots(g.mix, p, lane + 1));
    }

    /** Mark stale the blocks every lane has written; `written` are the slots of those marked. */
    method InvalidateLanes(p: Packet) returns (r: Outcome<()>, ghost written: set<KvKey>)
      requires Valid() && PacketOk(p) && p.writtenPositions > 0 && LanesOnGpu(g.mix, p, State(), p.active)
      modifies this`core
      ensures Valid() && GoesStale(old(State()), State(), written)
      ensures r.Ok? <==> LanesWrite(p, p.active)
      ensures r.Ok? ==> written == WrittenSlots(g.mix, p, p.active)
    {
      ghost var v := State();
      NothingStale(v);
      OpenStale(v, v, {});
      OpenHale(g, core, free, nextPhysical, table);
      for lane := 0 to p.active
        invariant Hale(g, core, free, nextPhysical, table) && LanesWrite(p, lane)
        invariant GoingStale(v, State(), WrittenSlots(g.mix, p, lane))
      {
        r := InvalidateNext(p, lane, v);
        if r.Err? {
          OpenHale(g, core, free, nextPhysical, table);
          OpenStale(v, State(), WrittenSlots(g.mix, p, lane));
          return r, WrittenSlots(g.mix, p, lane);
        }
      }
      OpenHale(g, core, free, nextPhysical, table);
      OpenStale(v, State(), WrittenSlots(g.mix, p, p.active));
      return Ok(()), WrittenSlots(g.mix, p, p.active);
    }

    /**
     * Commit a packet's writes: every block of the packet is marked resident, and every block a lane has written
     * loses its backing copy. Nothing else changes; a failure may leave some of it done.
     */
    method CommitTable(p: Packet) returns (r: Outcome<()>, ghost marked: set<KvKey>, ghost written: set<KvKey>)
      requires Valid()
      modifies this`core
      ensures Valid() && table == old(table) && Commits(old(State()), State(), marked, written)
      ensures r.Ok? <==>
        && Accepts(g, old(core.backingCapacity), p) && p.generation == table.generation && p.writtenPositions > 0
        && LanesFit(p, p.active) && LanesOnGpu(g.mix, p, old(State()), p.active) && LanesWrite(p, p.active)
      ensures r.Ok? ==> marked == PacketSlots(g.mix, p, p.active) && written == WrittenSlots(g.mix, p, p.active)
      ensures r.Err? ==> marked == {} || (PacketOk(p) && marked <= PacketSlots(g.mix, p, p.active))
    {
      ghost var v := State();
      written := {};
      r, marked := MarkTable(p);
      NothingStale(State());
      if r.Err? {
        return;
      }
      if p.writtenPositions == 0 {
        return Err(InvalidArgument), marked, written;
      }
      LanesOnGpuStay(g.mix, p, v, State(), p.active);
      r, written := InvalidateLanes(p);
    }

    /** Release a cell's slot when its block is in flight. */
    method CancelCell(sequence: nat, block: nat) returns (r: Outcome<()>)
      requires Valid()
      modifies this`core, this`free
      ensures Valid() && core.backingCapacity == old(core.backingCapacity)
      ensures var v, dk := old(State()), PrivateKey(g.mix, sequence, block);
        && (r.Ok? ==> Cancels(v, State(), {dk}))
        && (r.Err? ==> r.error == Busy && State() == v && Stuck(v, Cancelled(v, {dk})))
    {
      ghost var v, dk := State(), PrivateKey(g.mix, sequence, block);
      var slot := SequenceBlock(sequence, block);
      if slot.None? {
        CancelsNone(v, dk);
        return Ok(());
      }
      var physical := core.blocks[slot.value].value.physical;
      if physical == NO_BLOCK || core.states[physical] != InFlight {
        CancelsNone(v, dk);
        return Ok(());
      }
      r := DirectoryRelease(sequence, block);
      if r.Ok? {
        CancelsOne(v, dk);
      } else {
        CancelIsStuck(v, dk);
      }
    }

    /** Release one slot; a slot that is not bound is not an error. */
    method ReleaseSlot(sequence: nat, block: nat) returns (r: Outcome<()>)
      requires Valid()
      modifies this`core, this`free
      ensures Valid() && core.backingCapacity == old(core.backingCapacity)
      ensures r.Ok? ==> Unbinding(old(State()), State(), {PrivateKey(g.mix, sequence, block)})
      ensures r.Err? ==> r.error == Busy && State() == old(State())
      ensures r.Err? ==> Stuck(old(State()), {PrivateKey(g.mix, sequence, block)})
    {
      ghost var v, dk := State(), PrivateKey(g.mix, sequence, block);
      r := DirectoryRelease(sequence, block);
      if r.Ok? {
        ReleaseOnlyUnbinds(v, dk);
        OpenUnbinding(v, State(), {dk});
      } else if r.error == NotFound {
        NothingUnbindsOne(v, dk);
        return Ok(());
      } else {
        RefusedIsStuck(v, dk);
      }
    }

    /** Release one more slot of a sequence, after those of its first `block` logical blocks. */
    method ReleaseNext(sequence: nat, block: nat, ghost n: nat, ghost v: View) returns (r: Outcome<()>)
      requires Hale(g, core, free, nextPhysical, table) && block < n
      requires Unbinding(v, State(), SequenceSlots(g.mix, sequence, block))
      modifies this`core, this`free
      ensures Hale(g, core, free, nextPhysical, table) && core.backingCapacity == old(core.backingCapacity)
      ensures r.Ok? ==> Unbinding(v, State(), SequenceSlots(g.mix, sequence, block + 1))
      ensures r.Err? ==> r.error == Busy && State() == old(State()) && Stuck(v, SequenceSlots(g.mix, sequence, n))
    {
      ghost var u, dk, gone := State(), PrivateKey(g.mix, sequence, block), SequenceSlots(g.mix, sequence, block);
      OpenHale(g, core, free, nextPhysical, table);
      r := ReleaseSlot(sequence, block);
      OpenHale(g, core, free, nextPhysical, table);
      if r.Err? {
        SlotsGrow(g.mix, sequence, block + 1, n);
        StuckLater(v, u, gone, {dk});
        MoreIsStuck(v, gone + {dk}, SequenceSlots(g.mix, sequence, n));
      } else {
        UnbindingMore(v, u, State(), gone, {dk});
      }
    }

    /** Release a sequence's slot for each of its first `n` logical blocks; `gone` are the slots released. */
    method ReleaseSlots(sequence: nat, n: nat) returns (r: Outcome<()>, ghost gone: set<KvKey>)
      requires Valid()
      modifies this`core, this`free
      ensures Valid() && core.backingCapacity == old(core.backingCapacity)
      ensures Unbinding(old(State()), State(), gone) && gone <= SequenceSlots(g.mix, sequence, n)
      ensures r.Ok? ==> gone == SequenceSlots(g.mix, sequence, n)
      ensures r.Err? ==> r.error == Busy
      ensures r.Err? <==> Stuck(old(State()), SequenceSlots(g.mix, sequence, n))
    {
      ghost var v := State();
      NothingUnbinding(v);
      OpenHale(g, core, free, nextPhysical, table);
      for block := 0 to n
        invariant Hale(g, core, free, nextPhysical, table) && core.backingCapacity == old(core.backingCapacity)
        invariant Unbinding(v, State(), SequenceSlots(g.mix, sequence, block))
      {
        r := ReleaseNext(sequence, block, n, v);
        if r.Err? {
          SlotsGrow(g.mix, sequence, block, n);
          OpenHale(g, core, free, nextPhysical, table);
          return r, SequenceSlots(g.mix, sequence, block);
        }
      }
      OpenHale(g, core, free, nextPhysical, table);
      UnboundWasFree(v, State(), SequenceSlots(g.mix, sequence, n));
      return Ok(()), SequenceSlots(g.mix, sequence, n);
    }

    /** Release a finished sequence; `gone` are the slots released. */
    method ReleaseSequence(sequence: nat, n: nat) returns (r: Outcome<()>, ghost gone: set<KvKey>)
      requires Valid()
      modifies this`core, this`free
      ensures Valid() && core.backingCapacity == old(core.backingCapacity)
      ensures r == Err(InvalidArgument) <==> sequence == 0 || n == 0 || n > g.laneStride
      ensures Unbinds(old(State()), State(), gone) && gone <= SequenceSlots(g.mix, sequence, n)
      ensures r.Ok? ==> gone == SequenceSlots(g.mix, sequence, n)
      ensures r.Err? ==> r.error in {InvalidArgument, Busy}
      ensures r != Err(InvalidArgument) ==> (r.Err? <==> Stuck(old(State()), SequenceSlots(g.mix, sequence, n)))
    {
      if sequence == 0 || n == 0 || n > g.laneStride {
        NothingUnbound(State());
        gone := {};
        assert State().dir - gone == State().dir;
        return Err(InvalidArgument), gone;
      }
      ghost var v := State();
      r, gone := ReleaseSlots(sequence, n);
      OpenUnbinding(v, State(), gone);
    }

    /** Release the slots of a sequence whose blocks are in flight; `seen` are those of the first `n` looked at. */
    method CancelCells(sequence: nat, n: nat) returns (r: Outcome<()>, ghost seen: set<KvKey>)
      requires Valid()
      modifies this`core, this`free
      ensures Valid() && core.backingCapacity == old(core.backingCapacity)
      ensures Cancels(old(State()), State(), seen) && seen <= SequenceSlots(g.mix, sequence, n)
      ensures r.Ok? ==> seen == SequenceSlots(g.mix, sequence, n)
      ensures r.Err? ==> Stuck(old(State()), Cancelled(old(State()), SequenceSlots(g.mix, sequence, n)))
    {
      ghost var v := State();
      NothingCancelled(v);
      seen := {};
      for block := 0 to n
        invariant Valid() && core.backingCapacity == old(core.backingCapacity)
        invariant seen == SequenceSlots(g.mix, sequence, block) && Cancels(v, State(), seen)
      {
        ghost var u, dk := State(), PrivateKey(g.mix, sequence, block);
        SlotsGrow(g.mix, sequence, block + 1, n);
        r := CancelCell(sequence, block);
        if r.Err? {
          CancelStuckLater(v, u, seen, {dk}, SequenceSlots(g.mix, sequence, n));
          return;
        }
        CancelsChain(v, u, State(), seen, {dk});
        seen := seen + {dk};
      }
      return Ok(()), seen;
    }

    /** Cancel a lane: release its slots whose blocks are in flight; `seen` are the slots looked at. */
    method CancelLane(p: Packet, lane: nat) returns (r: Outcome<()>, ghost seen: set<KvKey>)
      requires Valid() && lane < |p.lanes|
      modifies this`core, this`free
      ensures Valid() && core.backingCapacity == old(core.backingCapacity)
      ensures Cancels(old(State()), State(), seen) && seen <= LaneSlots(g.mix, p, lane, LaneBlocks(p, lane))
      ensures r.Ok? ==> LaneFits(p, lane) && seen == LaneSlots(g.mix, p, lane, LaneBlocks(p, lane))
      ensures r.Err? && LaneFits(p, lane) ==>
        Stuck(old(State()), Cancelled(old(State()), LaneSlots(g.mix, p, lane, LaneBlocks(p, lane))))
    {
      var count := LaneBlocks(p, lane);
      if count == 0 || count > p.maxBlocks {
        NothingCancelled(State());
        return Err(CapacityExceeded), {};
      }
      r, seen := CancelCells(p.lanes[lane].sequence, count);
    }

    /** Cancel every lane; `seen` are the slots looked at. */
    method CancelLanes(p: Packet) returns (r: Outcome<()>, ghost seen: set<KvKey>)
      requires Valid() && p.active <= |p.lanes|
      modifies this`core, this`free
      ensures Valid() && seen <= PacketSlots(g.mix, p, p.active)
      ensures Unbinds(old(State()), State(), Cancelled(old(State()), seen))
      ensures r.Ok? ==> seen == PacketSlots(g.mix, p, p.active)
      ensures r.Ok? <==>
        LanesFit(p, p.active) && !Stuck(old(State()), Cancelled(old(State()), PacketSlots(g.mix, p, p.active)))
    {
      ghost var v := State();
      NothingCancelled(v);
      seen := {};
      for lane := 0 to p.active
        invariant Valid() && LanesFit(p, lane)
        invariant seen == PacketSlots(g.mix, p, lane) && Cancels(v, State(), seen)
      {
        ghost var u, more := State(), {};
        PacketSlotsGrow(g.mix, p, lane + 1, p.active);
        r, more := CancelLane(p, lane);
        CancelsChain(v, u, State(), seen, more);
        if r.Err? {
          OpenCancels(v, State(), seen + more);
          if LanesFit(p, p.active) {
            LanesFitEach(p, p.active, lane);
            CancelStuckLater(v, u, seen, LaneSlots(g.mix, p, lane, LaneBlocks(p, lane)),
                             PacketSlots(g.mix, p, p.active));
          }
          return r, seen + more;
        }
        seen := seen + more;
      }
      OpenCancels(v, State(), seen);
      OpenUnbinding(v, State(), Cancelled(v, seen));
      UnboundWasFree(v, State(), Cancelled(v, seen));
      return Ok(()), seen;
    }

    /**
     * Cancel a packet: exactly its slots that name a block in flight are unbound. A failure leaves some of them
     * bound; no other slot is ever unbound, and no block that is left moves.
     */
    method CancelTable(p: Packet) returns (r: Outcome<()>, ghost seen: set<KvKey>)
      requires Valid()
      modifies this`core, this`free
      ensures Valid() && Unbinds(old(State()), State(), Cancelled(old(State()), seen))
      ensures r.Ok? <==>
        && Accepts(g, old(core.backingCapacity), p) && p.generation == table.generation && LanesFit(p, p.active)
        && !Stuck(old(State()), Cancelled(old(State()), PacketSlots(g.mix, p, p.active)))
      ensures r.Ok? ==> seen == PacketSlots(g.mix, p, p.active)
      ensures r.Err? ==> seen == {} || (PacketOk(p) && seen <= PacketSlots(g.mix, p, p.active))
    {
      ghost var v := State();
      NothingUnbound(v);
      seen := {};
      assert v.dir - Cancelled(v, seen) == v.dir;
      r := Validate(p);
      if r.Err? {
        return;
      }
      if p.generation != table.generation {
        return Err(NotFound), seen;
      }
      r, seen := CancelLanes(p);
    }

    /** Release the sequence of one lane more; `gone` are the slots released since `v`. */
    method ReleaseLane(p: Packet, lane: nat, ghost v: View) returns (r: Outcome<()>, ghost gone: set<KvKey>)
      requires Valid() && PacketOk(p) && lane < p.active && Unbinding(v, State(), PacketSlots(g.mix, p, lane))
      modifies this`core, this`free
      ensures Valid() && Unbinding(v, State(), gone) && gone <= PacketSlots(g.mix, p, lane + 1)
      ensures r.Ok? ==> gone == PacketSlots(g.mix, p, lane + 1) && 0 < LaneBlocks(p, lane) <= g.laneStride
      ensures r.Err? ==> !LanesWithin(p, p.active, g.laneStride) || Stuck(v, PacketSlots(g.mix, p, p.active))
    {
      ghost var u, more := State(), {};
      r, more := ReleaseSequence(p.lanes[lane].sequence, LaneBlocks(p, lane));
      gone := PacketSlots(g.mix, p, lane) + more;
      OpenUnbinding(u, State(), more);
      UnbindingMore(v, u, State(), PacketSlots(g.mix, p, lane), more);
      if r.Err? {
        LanesFailToRelease(g.mix, p, v, u, lane, g.laneStride);
      }
    }

    /** Release the sequences of the lanes one after the other; `gone` are the slots released. */
    method ReleaseEach(p: Packet) returns (r: Outcome<()>, ghost gone: set<KvKey>)
      requires Valid() && PacketOk(p)
      modifies this`core, this`free
      ensures Valid() && Unbinding(old(State()), State(), gone) && gone <= PacketSlots(g.mix, p, p.active)
      ensures r.Ok? ==> gone == PacketSlots(g.mix, p, p.active) && LanesWithin(p, p.active, g.laneStride)
      ensures r.Err? ==>
        !LanesWithin(p, p.active, g.laneStride) || Stuck(old(State()), PacketSlots(g.mix, p, p.active))
    {
      ghost var v := State();
      NothingUnbinding(v);
      gone := {};
      for lane := 0 to p.active
        invariant Valid() && LanesWithin(p, lane, g.laneStride)
        invariant gone == PacketSlots(g.mix, p, lane) && Unbinding(v, State(), gone)
      {
        r, gone := ReleaseLane(p, lane, v);
        if r.Err? {
          PacketSlotsGrow(g.mix, p, lane + 1, p.active);
          return;
        }
      }
      return Ok(()), gone;
    }

    /** Release the sequence of every lane; `gone` are the slots released. */
    method ReleaseLanes(p: Packet) returns (r: Outcome<()>, ghost gone: set<KvKey>)
      requires Valid() && PacketOk(p)
      modifies this`core, this`free
      ensures Valid() && Unbinding(old(State()), State(), gone) && gone <= PacketSlots(g.mix, p, p.active)
      ensures r.Ok? ==> gone == PacketSlots(g.mix, p, p.active)
      ensures r.Ok? <==>
        LanesWithin(p, p.active, g.laneStride) && !Stuck(old(State()), PacketSlots(g.mix, p, p.active))
    {
      ghost var v := State();
      r, gone := ReleaseEach(p);
      if r.Ok? {
        UnboundWasFree(v, State(), gone);
      }
    }

    /**
     * Release the sequences of a packet, in its generation or a newer one; a packet of an older one does nothing.
     * Of what the packet's generation has bound exactly the slots in `gone` are unbound, all of the packet's on
     * success.
     */
    method ReleasePacket(p: Packet) returns (r: Outcome<()>, ghost gone: set<KvKey>)
      requires Valid()
      modifies this`core, this`free, this`nextPhysical, this`table
      ensures Valid()
      ensures !Accepts(g, old(core.backingCapacity), p) || !p.releases ==> r.Err?
      ensures !Accepts(g, old(core.backingCapacity), p) || !p.releases || p.generation < old(table.generation) ==>
        core == old(core) && free == old(free) && table == old(table)
      ensures Accepts(g, old(core.backingCapacity), p) && p.releases && p.generation < old(table.generation) ==> r.Ok?
      ensures Accepts(g, old(core.backingCapacity), p) && p.releases && p.generation >= old(table.generation) ==>
        var kept := p.generation == old(table.generation);
        && State().dir == Kept(old(State()), kept).dir - gone && (kept ==> Unbinds(old(State()), State(), gone))
        && table.generation == p.generation && gone <= PacketSlots(g.mix, p, p.active)
        && (r.Ok? ==> gone == PacketSlots(g.mix, p, p.active))
        && (r.Ok? <==>
              && LanesWithin(p, p.active, g.laneStride)
              && !(kept && Stuck(old(State()), PacketSlots(g.mix, p, p.active))))
    {
      gone := {};
      r := Validate(p);
      if r.Err? {
        return;
      }
      if !p.releases {
        return Err(InvalidArgument), gone;
      }
      if p.generation < table.generation {
        return Ok(()), gone;
      }
      ghost var kept := p.generation == table.generation;
      r := AdvanceGeneration(p.generation);
      ghost var m := State();
      if !kept {
        IdleIsNotStuck(m, PacketSlots(g.mix, p, p.active));
      }
      r, gone := ReleaseLanes(p);
      OpenUnbinding(m, State(), gone);
    }

    // ---- Prefetch ------------------------------------------------------------

    /** Mark the swapped block of a cell, unless it bears the mark already; answers whether it did. */
    method PrefetchCell(sequence: nat, block: nat, mark: nat) returns (e: Option<(KvKey, nat)>)
      requires Valid()
      modifies this`core
      ensures Valid() && core.backingCapacity == old(core.backingCapacity)
      ensures Looks(old(State()), State(), mark, PrivateKey(g.mix, sequence, block), e)
    {
      ghost var v, dk := State(), PrivateKey(g.mix, sequence, block);
      var slot := SequenceBlock(sequence, block);
      if slot.None? {
        return None;
      }
      var key, b := core.blocks[slot.value].key, core.blocks[slot.value].value;
      assert NamedBy(v.dir, {dk}) == {key};
      if b.onGpu || !b.backingValid || b.prefetchMark == mark {
        return None;
      }
      var record := b.(prefetchMark := mark);
      UpdateKeepsCoherent(v, key, record);
      RecordIsStored(g, core, free, slot.value, record);
      core := WithRecord(core, slot.value, record);
      return Some((key, b.backing));
    }

    /** Collect the swapped blocks of one lane, after those of the slots in `before`. */
    method PrefetchLane(p: Packet, lane: nat, mark: nat, capacity: nat, entries: seq<(KvKey, nat)>, ghost v: View,
                        ghost before: set<KvKey>)
      returns (r: Outcome<seq<(KvKey, nat)>>)
      requires Valid() && lane < |p.lanes| && |entries| <= capacity && Gathered(v, State(), mark, entries, before)
      modifies this`core
      ensures Valid() && core.backingCapacity == old(core.backingCapacity)
      ensures var all := before + LaneSlots(g.mix, p, lane, LaneBlocks(p, lane));
        && (r.Ok? ==> |r.value| <= capacity && Gathered(v, State(), mark, r.value, all))
        && (r.Err? ==> r.error == CapacityExceeded && Overflows(v, State(), mark, all, capacity))
    {
      var list, count, sequence := entries, LaneBlocks(p, lane), p.lanes[lane].sequence;
      assert before + {} == before;
      for block := 0 to count
        invariant Valid() && core.backingCapacity == old(core.backingCapacity) && |list| <= capacity
        invariant Gathered(v, State(), mark, list, before + SequenceSlots(g.mix, sequence, block))
      {
        ghost var u := State();
        var e := PrefetchCell(sequence, block, mark);
        GatherCell(g.mix, sequence, block, before, v, u, State(), mark, list, e);
        if e.Some? {
          if |list| >= capacity {
            SlotsGrow(g.mix, sequence, block + 1, count);
            GatheredTooMany(v, State(), mark, list + [e.value], before + SequenceSlots(g.mix, sequence, block + 1),
                            before + SequenceSlots(g.mix, sequence, count), capacity);
            return Err(CapacityExceeded);
          }
          list := list + [e.value];
        }
      }
      return Ok(list);
    }

    /** Collect the swapped blocks of one more lane of a packet. */
    method PrefetchNextLane(p: Packet, lane: nat, mark: nat, capacity: nat, entries: seq<(KvKey, nat)>, ghost v: View,
                            ghost before: set<KvKey>)
      returns (r: Outcome<seq<(KvKey, nat)>>)
      requires Hale(g, core, free, nextPhysical, table) && lane < p.active <= |p.lanes| && |entries| <= capacity
      requires Gathered(v, State(), mark, entries, before + PacketSlots(g.mix, p, lane))
      modifies this`core
      ensures Hale(g, core, free, nextPhysical, table) && core.backingCapacity == old(core.backingCapacity)
      ensures r.Ok? ==>
        |r.value| <= capacity && Gathered(v, State(), mark, r.value, before + PacketSlots(g.mix, p, lane + 1))
      ensures r.Err? ==>
        r.error == CapacityExceeded && Overflows(v, State(), mark, before + PacketSlots(g.mix, p, p.active), capacity)
    {
      OpenHale(g, core, free, nextPhysical, table);
      GatherLane(g.mix, p, lane, before);
      r := PrefetchLane(p, lane, mark, capacity, entries, v, before + PacketSlots(g.mix, p, lane));
      OpenHale(g, core, free, nextPhysical, table);
      if r.Err? {
        OverflowGrows(v, State(), mark, before + PacketSlots(g.mix, p, lane + 1),
                      before + PacketSlots(g.mix, p, p.active), capacity);
      }
    }

    /** Collect the swapped blocks of one packet, after those of the slots in `before`. */
    method PrefetchPacket(p: Packet, mark: nat, capacity: nat, entries: seq<(KvKey, nat)>, ghost v: View,
                          ghost before: set<KvKey>)
      returns (r: Outcome<seq<(KvKey, nat)>>)
      requires Valid() && p.active <= |p.lanes| && |entries| <= capacity && Gathered(v, State(), mark, entries, before)
      modifies this`core
      ensures Valid() && core.backingCapacity == old(core.backingCapacity)
      ensures r.Ok? ==>
        |r.value| <= capacity && Gathered(v, State(), mark, r.value, before + PacketSlots(g.mix, p, p.active))
      ensures r.Err? ==>
        r.error == CapacityExceeded && Overflows(v, State(), mark, before + PacketSlots(g.mix, p, p.active), capacity)
    {
      var list := entries;
      assert before + {} == before;
      OpenHale(g, core, free, nextPhysical, table);
      for lane := 0 to p.active
        invariant Hale(g, core, free, nextPhysical, table)
        invariant core.backingCapacity == old(core.backingCapacity) && |list| <= capacity
        invariant Gathered(v, State(), mark, list, before + PacketSlots(g.mix, p, lane))
      {
        r := PrefetchNextLane(p, lane, mark, capacity, list, v, before);
        if r.Err? {
          OpenHale(g, core, free, nextPhysical, table);
          return;
        }
        list := r.value;
      }
      OpenHale(g, core, free, nextPhysical, table);
      return Ok(list);
    }

    /** Collect the swapped blocks of one more packet, if it is fetched ahead. */
    method PrefetchNext(p: Packet, mark: nat, capacity: nat, entries: seq<(KvKey, nat)>, ghost v: View,
                        ghost slots: set<KvKey>, ghost all: set<KvKey>)
      returns (r: Outcome<seq<(KvKey, nat)>>)
      requires Valid() && |entries| <= capacity && Gathered(v, State(), mark, entries, slots)
      requires slots + FetchSlotsOf(g.mix, p, table.generation) <= all
      modifies this`core
      ensures Valid() && core.backingCapacity == old(core.backingCapacity)
      ensures r.Ok? ==> Accepts(g, core.backingCapacity, p) && |r.value| <= capacity
      ensures r.Ok? ==> Gathered(v, State(), mark, r.value, slots + FetchSlotsOf(g.mix, p, table.generation))
      ensures r.Err? ==>
        || (!Accepts(g, core.backingCapacity, p) && Marking(v, State(), mark))
        || Overflows(v, State(), mark, all, capacity)
    {
      var valid := Validate(p);
      if valid.Err? {
        GatheringMarks(v, State(), mark, entries, slots);
        return Err(valid.error);
      }
      if !IsFetched(p, table.generation) {
        assert slots + {} == slots;
        return Ok(entries);
      }
      r := PrefetchPacket(p, mark, capacity, entries, v, slots);
      if r.Err? {
        OverflowGrows(v, State(), mark, slots + PacketSlots(g.mix, p, p.active), all, capacity);
      }
    }

    /** Collect the swapped blocks of the packets that are fetched ahead. */
    method PrefetchPackets(packets: seq<Packet>, mark: nat, capacity: nat) returns (r: Outcome<seq<(KvKey, nat)>>)
      requires Valid()
      modifies this`core
      ensures Valid()
      ensures r.Ok? ==> |r.value| <= capacity && AcceptsAll(g, old(core.backingCapacity), packets, |packets|)
      ensures r.Ok? ==>
        Gathered(old(State()), State(), mark, r.value, FetchSlots(g.mix, packets, table.generation, |packets|))
      ensures r.Err? ==>
        || (!AcceptsAll(g, old(core.backingCapacity), packets, |packets|) && Marking(old(State()), State(), mark))
        || Overflows(old(State()), State(), mark, FetchSlots(g.mix, packets, table.generation, |packets|), capacity)
    {
      ghost var v := State();
      var list: seq<(KvKey, nat)> := [];
      NothingGathered(v, mark);
      for i := 0 to |packets|
        invariant Valid() && core.backingCapacity == old(core.backingCapacity) && |list| <= capacity
        invariant Gathered(v, State(), mark, list, FetchSlots(g.mix, packets, table.generation, i))
        invariant AcceptsAll(g, core.backingCapacity, packets, i)
      {
        FetchSlotsGrow(g.mix, packets, table.generation, i + 1, |packets|);
        r := PrefetchNext(packets[i], mark, capacity, list, v, FetchSlots(g.mix, packets, table.generation, i),
                          FetchSlots(g.mix, packets, table.generation, |packets|));
        if r.Err? {
          AcceptsAllButOne(g, core.backingCapacity, packets, |packets|, i);
          return;
        }
        list := r.value;
      }
      return Ok(list);
    }

    /**
     * Collect, once each, the swapped blocks of the packets of the current generation that are not released and do
     * not bear the new mark by chance. It succeeds exactly when every packet is accepted and the blocks fit.
     */
    method CollectPrefetch(packets: seq<Packet>, capacity: nat) returns (r: Outcome<seq<(KvKey, nat)>>)
      requires Valid()
      modifies this`core, this`table
      ensures Valid()
      ensures packets == [] || capacity == 0 ==> r == Err(InvalidArgument) && core == old(core) && table == old(table)
      ensures packets != [] && capacity > 0 ==>
        var v, mark := old(State()), PrefetchMark(table.prefetchGeneration);
        var slots := FetchSlots(g.mix, packets, table.generation, |packets|);
        && table == old(table).(prefetchGeneration := Truncated(old(table).prefetchGeneration + 1))
        && (r.Ok? <==>
              AcceptsAll(g, old(core.backingCapacity), packets, |packets|) && |ToFetch(v, mark, slots)| <= capacity)
        && (r.Ok? ==> Collects(v, State(), mark, r.value, slots))
        && OnlyMarks(v, State(), mark)
    {
      if packets == [] || capacity == 0 {
        return Err(InvalidArgument);
      }
      table := table.(prefetchGeneration := Truncated(table.prefetchGeneration + 1));
      var mark := PrefetchMark(table.prefetchGeneration);
      ghost var v, slots := State(), FetchSlots(g.mix, packets, table.generation, |packets|);
      r := PrefetchPackets(packets, mark, capacity);
      OpenOverflows(v, State(), mark, slots, capacity);
      OpenMarking(v, State(), mark);
      if r.Ok? {
        GatheringMarks(v, State(), mark, r.value, slots);
        GatheredIsAll(v, State(), mark, r.value, slots);
      }
    }
  }
}
