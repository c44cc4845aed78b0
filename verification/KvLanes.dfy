/**
 * Packets and lanes: how many blocks a lane needs, which key each of its blocks
 * asks for, and where the block table keeps the answer.
 */
module KvLanes {
  import opened Blocks
  import opened Results
  import opened KvIndex
  import opened KvView
  import opened KvReadiness

  /** What one lane of a packet asks of the block table. */
  datatype Lane = Lane(sequence: nat, contextTokens: nat, position: nat, speculativeTokens: nat, mtpDraftTokens: nat)

  /**
   * A work packet. `wellFormed` is the verdict of the packet checks that concern no block table field;
   * `writtenPositions` is how many positions a lane of the packet writes.
   */
  datatype Packet = Packet(
    wellFormed: bool,
    prefill: bool,
    releases: bool,
    generation: nat,
    blockTokens: nat,
    maxBlocks: nat,
    active: nat,
    writtenPositions: nat,
    lanes: seq<Lane>)

  predicate PacketOk(p: Packet) {
    && p.wellFormed
    && 0 < p.generation && 0 < p.blockTokens && 0 < p.maxBlocks
    && 0 < p.active <= |p.lanes|
    && forall i :: 0 <= i < p.active ==> p.lanes[i].sequence != 0
  }

  // ---- Blocks of a lane ----------------------------------------------------

  /** Tokens of a lane below its speculative and draft tail: the tail ends the lane, and may be longer than it. */
  function CommittedFrontier(lane: Lane): (f: nat)
    ensures lane.contextTokens <= f + lane.speculativeTokens + lane.mtpDraftTokens
    ensures f > 0 ==> f + lane.speculativeTokens + lane.mtpDraftTokens == lane.contextTokens
  {
    var outstanding := lane.speculativeTokens + lane.mtpDraftTokens;
    if outstanding < lane.contextTokens then lane.contextTokens - outstanding else 0
  }

  // ---- Keys of a lane ------------------------------------------------------

  /** Published content keys: one row of `stride` keys for each lane. */
  datatype Sharing = Sharing(keys: Option<seq<KvKey>>, stride: nat)

  /** The key row of a lane, when it covers `count` blocks. */
  function LaneKeys(s: Sharing, lane: nat, count: nat): (r: Option<seq<KvKey>>)
    ensures r.Some? ==> |r.value| == count
  {
    if s.keys.None? || count > s.stride then None
    else
      var start := lane * s.stride;
      if start + count <= |s.keys.value| then Some(s.keys.value[start..start + count]) else None
  }

  /** A block may be shared when its content key is published and it lies wholly below the frontier. */
  predicate MayShare(row: Option<seq<KvKey>>, block: nat, end: nat, frontier: nat) {
    row.Some? && block < |row.value| && end <= frontier && !row.value[block].IsEmpty()
  }

  /** The key a block asks for: its content key when it may be shared, its private key otherwise. */
  function SelectKey(mix: Mixer, row: Option<seq<KvKey>>, sequence: nat, block: nat, end: nat,
                     frontier: nat): (k: KvKey)
    requires row.Some? ==> block < |row.value|
    ensures !k.IsEmpty() && MayName(PrivateKey(mix, sequence, block), k)
    ensures IsContent(k) <==> MayShare(row, block, end, frontier)
    ensures IsPrivate(k) ==> k == PrivateKey(mix, sequence, block)
  {
    if row.Some? && end <= frontier && !row.value[block].IsEmpty()
    then ContentKey(row.value[block].low, row.value[block].high)
    else PrivateKey(mix, sequence, block)
  }

  function LaneBlocks(p: Packet, lane: nat): nat
    requires lane < |p.lanes|
  {
    BlockCount(p.lanes[lane].contextTokens, p.blockTokens)
  }

  /** The directory slot of block `block` of lane `lane`. */
  function SlotKey(mix: Mixer, p: Packet, lane: nat, block: nat): (k: KvKey)
    requires lane < |p.lanes|
    ensures IsPrivate(k)
  {
    PrivateKey(mix, p.lanes[lane].sequence, block)
  }

  /** The key block `block` of lane `lane` asks for. */
  function WantedKey(mix: Mixer, s: Sharing, p: Packet, lane: nat, block: nat): (k: KvKey)
    requires lane < |p.lanes| && block < LaneBlocks(p, lane)
    ensures !k.IsEmpty() && MayName(SlotKey(mix, p, lane, block), k)
  {
    SelectKey(mix, LaneKeys(s, lane, LaneBlocks(p, lane)), p.lanes[lane].sequence, block,
              EndToken(block + 1, p.blockTokens), CommittedFrontier(p.lanes[lane]))
  }

  /** Position `q` lies in the speculative and draft tail of a lane. */
  predicate IsDraft(lane: Lane, q: nat) {
    q < lane.contextTokens <= q + lane.speculativeTokens + lane.mtpDraftTokens
  }

  /** The block of a draft position asks for its private key, whatever keys are published. */
  lemma DraftBlockStaysPrivate(mix: Mixer, s: Sharing, p: Packet, lane: nat, q: nat)
    requires lane < |p.lanes| && p.blockTokens > 0 && IsDraft(p.lanes[lane], q)
    ensures var block := BlockOf(q, p.blockTokens);
      block < LaneBlocks(p, lane) && WantedKey(mix, s, p, lane, block) == SlotKey(mix, p, lane, block)
  {
    PositionIsCovered(q, p.lanes[lane].contextTokens, p.blockTokens);
  }

  /** The key published for a block of a lane: `stride` keys for each lane, in order. */
  function PublishedKey(s: Sharing, lane: nat, block: nat): Option<KvKey> {
    var at := lane * s.stride + block;
    if s.keys.Some? && at < |s.keys.value| then Some(s.keys.value[at]) else None
  }

  /** A row of keys is published that covers all blocks of a lane. */
  predicate RowIsPublished(s: Sharing, p: Packet, lane: nat)
    requires lane < |p.lanes|
  {
    && s.keys.Some? && LaneBlocks(p, lane) <= s.stride
    && lane * s.stride + LaneBlocks(p, lane) <= |s.keys.value|
  }

  /**
   * A block asks for a content key exactly when the lane's row is published with a key for the block, and the block
   * holds committed positions only.
   */
  lemma SharedIffCommitted(mix: Mixer, s: Sharing, p: Packet, lane: nat, block: nat)
    requires lane < |p.lanes| && block < LaneBlocks(p, lane)
    ensures var l := p.lanes[lane];
      IsContent(WantedKey(mix, s, p, lane, block)) <==>
        && RowIsPublished(s, p, lane) && !PublishedKey(s, lane, block).value.IsEmpty()
        && EndToken(block + 1, p.blockTokens) + l.speculativeTokens + l.mtpDraftTokens <= l.contextTokens
  {
    assert EndToken(block + 1, p.blockTokens) > 0;
  }

  /** A shared block asks for a key made from the one published at its lane and block. */
  lemma WantedIsPublished(mix: Mixer, s: Sharing, p: Packet, lane: nat, block: nat)
    requires lane < |p.lanes| && block < LaneBlocks(p, lane) && IsContent(WantedKey(mix, s, p, lane, block))
    ensures var key := PublishedKey(s, lane, block);
      key.Some? && WantedKey(mix, s, p, lane, block) == ContentKey(key.value.low, key.value.high)
  {
  }

  /** Two published keys name one content: they agree outside the two tag bits of the high word. */
  predicate SameContent(a: KvKey, b: KvKey) {
    a.low == b.low && a.high / 4 == b.high / 4
  }

  /** A shared block asks for the key published for it, with the content tag in place of its two tag bits. */
  lemma ContentIsPublished(mix: Mixer, s: Sharing, p: Packet, lane: nat, block: nat)
    requires lane < |p.lanes| && block < LaneBlocks(p, lane) && IsContent(WantedKey(mix, s, p, lane, block))
    ensures var key := WantedKey(mix, s, p, lane, block);
      && PublishedKey(s, lane, block).Some? && SameContent(key, PublishedKey(s, lane, block).value)
      && key.high % 4 == 2
  {
    WantedIsPublished(mix, s, p, lane, block);
    var key := PublishedKey(s, lane, block).value;
    ContentKeepsDigest(key.low, key.high);
  }

  /** Two shared blocks ask for one key exactly when the keys published for them name one content. */
  lemma ContentsAgreeIff(mix: Mixer, s: Sharing, p: Packet, lane: nat, block: nat, lane': nat, block': nat)
    requires lane < |p.lanes| && block < LaneBlocks(p, lane) && IsContent(WantedKey(mix, s, p, lane, block))
    requires lane' < |p.lanes| && block' < LaneBlocks(p, lane') && IsContent(WantedKey(mix, s, p, lane', block'))
    ensures PublishedKey(s, lane, block).Some? && PublishedKey(s, lane', block').Some?
    ensures WantedKey(mix, s, p, lane, block) == WantedKey(mix, s, p, lane', block') <==>
      SameContent(PublishedKey(s, lane, block).value, PublishedKey(s, lane', block').value)
  {
    ContentIsPublished(mix, s, p, lane, block);
    ContentIsPublished(mix, s, p, lane', block');
    var k, k' := WantedKey(mix, s, p, lane, block), WantedKey(mix, s, p, lane', block');
    assert k.high == 4 * (k.high / 4) + 2 && k'.high == 4 * (k'.high / 4) + 2;
  }

  // ---- Readiness -----------------------------------------------------------

  /** Prefill may start a missing block; decode needs every block but its last to be resident already. */
  function ResolveEntryState(prefill: bool, last: bool, state: EntryState): (r: Option<EntryState>)
    ensures r.None? <==> !prefill && !last && state != Resident
    ensures r.Some? ==> r.value != Missing && (state != Missing ==> r.value == state)
    ensures r.Some? && state == Missing ==> r.value == InFlight
  {
    if prefill then Some(if state == Missing then InFlight else state)
    else if !last && state != Resident then None
    else Some(if last && state == Missing then InFlight else state)
  }

  /** A finished block is resident, or in flight where the packet may start one. */
  predicate IsReady(p: Packet, lane: nat, block: nat, s: EntryState)
    requires lane < |p.lanes|
  {
    s == Resident || (s == InFlight && (p.prefill || block + 1 == LaneBlocks(p, lane)))
  }

  /** The readiness a cell's block ends with, when it is found in state `found`. */
  function Settling(p: Packet, lane: nat, block: nat, found: EntryState): Option<EntryState>
    requires lane < |p.lanes|
  {
    ResolveEntryState(p.prefill, block + 1 == LaneBlocks(p, lane), found)
  }

  /** A cell that asks for `key` ends on a block with the readiness its packet gives it; no other block's changes. */
  ghost predicate CellReadies(mix: Mixer, p: Packet, v: View, w: View, lane: nat, block: nat, key: KvKey)
    requires lane < |p.lanes|
  {
    var dk := SlotKey(mix, p, lane, block);
    var s := Settling(p, lane, block, FoundState(v, dk, key));
    s.Some? && s.value != Transient && Readies(v, w, dk, key, s.value)
  }

  // ---- The block table -----------------------------------------------------

  /** Row-major position of a cell. */
  function Cell(stride: nat, lane: nat, block: nat): nat {
    lane * stride + block
  }

  lemma CellIsInside(stride: nat, lanes: nat, lane: nat, block: nat)
    requires lane < lanes && block < stride
    ensures Cell(stride, lane, block) < lanes * stride
  {
    assert (lane + 1) * stride <= lanes * stride;
  }

  lemma CellsAreDistinct(stride: nat, lane: nat, block: nat, lane': nat, block': nat)
    requires block < stride && block' < stride && Cell(stride, lane, block) == Cell(stride, lane', block')
    ensures lane == lane' && block == block'
  {
    assert lane < lane' ==> (lane + 1) * stride <= lane' * stride;
    assert lane' < lane ==> (lane' + 1) * stride <= lane * stride;
  }

  /** Cell `(lane, block)` comes before cell `(lane', block')` in build order. */
  predicate Earlier(lane: nat, block: nat, lane': nat, block': nat) {
    lane < lane' || (lane == lane' && block < block')
  }

  ghost predicate IsCell(p: Packet, lane: nat, block: nat) {
    lane < p.active <= |p.lanes| && block < LaneBlocks(p, lane)
  }

  /** No two cells of the packet use the same directory slot. */
  ghost predicate SlotsDistinct(mix: Mixer, p: Packet) {
    forall l, b, l', b' ::
      IsCell(p, l, b) && IsCell(p, l', b') && SlotKey(mix, p, l, b) == SlotKey(mix, p, l', b') ==> l == l' && b == b'
  }

  /**
   * A finished cell: its directory slot is placed in the physical slot the table records, under the key the
   * cell asked for, unless a pin holds the slot's block where it was, and the block is ready.
   */
  ghost predicate Filled(g: (Mixer, nat), s: Sharing, p: Packet, cells: seq<nat>, v: View, lane: nat, block: nat) {
    && IsCell(p, lane, block) && Cell(g.1, lane, block) < |cells|
    && var dk := SlotKey(g.0, p, lane, block);
       && Placed(v, dk, cells[Cell(g.1, lane, block)])
       && (v.dir[dk] == WantedKey(g.0, s, p, lane, block) || IsPinned(v, v.dir[dk]))
       && IsReady(p, lane, block, StateOf(v, v.dir[dk]))
  }

  /** How many cells before `(lane, block)`, in build order, name a block in flight. */
  ghost function InFlightCells(mix: Mixer, p: Packet, v: View, lane: nat, block: nat): nat
    requires lane <= |p.lanes| && (block > 0 ==> lane < |p.lanes|)
    decreases lane, block
  {
    if block > 0 then
      var dk := SlotKey(mix, p, lane, block - 1);
      InFlightCells(mix, p, v, lane, block - 1) + if dk in v.dir && StateOf(v, v.dir[dk]) == InFlight then 1 else 0
    else if lane == 0 then 0
    else InFlightCells(mix, p, v, lane - 1, LaneBlocks(p, lane - 1))
  }

  /** Every cell before `(lane, block)`, in build order, is finished. */
  ghost predicate FilledUpTo(g: (Mixer, nat), s: Sharing, p: Packet, cells: seq<nat>, v: View, lane: nat, block: nat)
    requires lane <= |p.lanes|
    decreases lane, block
  {
    if block > 0 then FilledUpTo(g, s, p, cells, v, lane, block - 1) && Filled(g, s, p, cells, v, lane, block - 1)
    else lane == 0 || FilledUpTo(g, s, p, cells, v, lane - 1, LaneBlocks(p, lane - 1))
  }

  lemma {:induction false} FilledMeans(g: (Mixer, nat), s: Sharing, p: Packet, cells: seq<nat>, v: View,
                                       lane: nat, block: nat, l: nat, b: nat)
    requires lane <= |p.lanes| && FilledUpTo(g, s, p, cells, v, lane, block)
    requires IsCell(p, l, b) && Earlier(l, b, lane, block)
    ensures Filled(g, s, p, cells, v, l, b)
    decreases lane, block
  {
    if block > 0 {
      if l != lane || b != block - 1 {
        FilledMeans(g, s, p, cells, v, lane, block - 1, l, b);
      }
    } else {
      FilledMeans(g, s, p, cells, v, lane - 1, LaneBlocks(p, lane - 1), l, b);
    }
  }

  /** A cell that is finished stays as it is while another slot is bound. */
  lemma OldCellStays(mix: Mixer, p: Packet, v: View, w: View, lane: nat, block: nat, key: KvKey, k: KvKey,
                     physical: nat)
    requires lane < |p.lanes| && CellReadies(mix, p, v, w, lane, block, key) && Placed(v, k, physical)
    requires var dk := SlotKey(mix, p, lane, block); Rebinds(v, w, dk, Target(v, dk, key)) && k != dk
    requires StateOf(v, v.dir[k]) != Missing
    ensures Placed(w, k, physical) && w.dir[k] == v.dir[k] && StateOf(w, w.dir[k]) == StateOf(v, v.dir[k])
    ensures IsPinned(v, v.dir[k]) ==> IsPinned(w, w.dir[k])
  {
    assert Placed(w, k, physical) && w.dir[k] == v.dir[k];
  }

  /** A lane needs at least one block and no more than the packet allows. */
  predicate LaneFits(p: Packet, lane: nat)
    requires lane < |p.lanes|
  {
    0 < LaneBlocks(p, lane) <= p.maxBlocks
  }

  /** The first `n` lanes fit. */
  predicate LanesFit(p: Packet, n: nat)
    requires n <= |p.lanes|
  {
    n == 0 || (LanesFit(p, n - 1) && LaneFits(p, n - 1))
  }

  lemma {:induction false} LanesFitEach(p: Packet, n: nat, lane: nat)
    requires lane < n <= |p.lanes| && LanesFit(p, n)
    ensures LaneFits(p, lane)
  {
    if lane < n - 1 {
      LanesFitEach(p, n - 1, lane);
    }
  }

  /** A finished cell stays finished, as ready as it was, while another slot is bound and another cell written. */
  lemma FilledStays(g: (Mixer, nat), s: Sharing, p: Packet, cells: seq<nat>, v: View, w: View,
                    lane: nat, block: nat, key: KvKey, physical: nat, l: nat, b: nat)
    requires SlotsDistinct(g.0, p) && IsCell(p, lane, block) && IsCell(p, l, b) && (l != lane || b != block)
    requires p.maxBlocks <= g.1 && LaneFits(p, lane) && LaneFits(p, l) && Cell(g.1, lane, block) < |cells|
    requires Filled(g, s, p, cells, v, l, b) && CellReadies(g.0, p, v, w, lane, block, key)
    requires var dk := SlotKey(g.0, p, lane, block); Rebinds(v, w, dk, Target(v, dk, key))
    ensures Filled(g, s, p, cells[Cell(g.1, lane, block) := physical], w, l, b)
    ensures var k := SlotKey(g.0, p, l, b); k in v.dir && k in w.dir && StateOf(w, w.dir[k]) == StateOf(v, v.dir[k])
  {
    assert SlotKey(g.0, p, l, b) != SlotKey(g.0, p, lane, block);
    OldCellStays(g.0, p, v, w, lane, block, key, SlotKey(g.0, p, l, b), cells[Cell(g.1, l, b)]);
    if Cell(g.1, l, b) == Cell(g.1, lane, block) {
      CellsAreDistinct(g.1, l, b, lane, block);
    }
  }

  /** Every finished cell before `(lane, block)` stays finished, as ready as it was. */
  ghost predicate Steady(g: (Mixer, nat), s: Sharing, p: Packet, cells: seq<nat>, v: View, after: seq<nat>, w: View,
                         lane: nat, block: nat)
  {
    forall l: nat, b: nat :: Filled(g, s, p, cells, v, l, b) && Earlier(l, b, lane, block) ==>
      && Filled(g, s, p, after, w, l, b)
      && StateOf(w, w.dir[SlotKey(g.0, p, l, b)]) == StateOf(v, v.dir[SlotKey(g.0, p, l, b)])
  }

  /** Finished cells stay finished, and as many of them name a block in flight as before. */
  lemma {:induction false} OldCellsStay(g: (Mixer, nat), s: Sharing, p: Packet, cells: seq<nat>, v: View,
                                        after: seq<nat>, w: View, lane: nat, block: nat, l: nat, b: nat)
    requires lane < p.active <= |p.lanes| && (l < lane || (l == lane && b <= block))
    requires b <= LaneBlocks(p, l) && FilledUpTo(g, s, p, cells, v, l, b)
    requires Steady(g, s, p, cells, v, after, w, lane, block)
    ensures FilledUpTo(g, s, p, after, w, l, b)
    ensures InFlightCells(g.0, p, w, l, b) == InFlightCells(g.0, p, v, l, b)
    decreases l, b
  {
    if b > 0 {
      OldCellsStay(g, s, p, cells, v, after, w, lane, block, l, b - 1);
    } else if l > 0 {
      OldCellsStay(g, s, p, cells, v, after, w, lane, block, l - 1, LaneBlocks(p, l - 1));
    }
  }

  lemma NewCellIsSettled(v: View, w: View, dk: KvKey, wanted: KvKey, physical: nat)
    requires Rebinds(v, w, dk, Target(v, dk, wanted)) && Placed(w, dk, physical)
    ensures w.dir[dk] == wanted || IsPinned(w, w.dir[dk])
  {
    if Target(v, dk, wanted) != wanted {
      assert IsPinned(v, v.dir[dk]);
    }
  }

  lemma CellsAreSteady(g: (Mixer, nat), s: Sharing, p: Packet, cells: seq<nat>, v: View, w: View,
                       lane: nat, block: nat, physical: nat)
    requires SlotsDistinct(g.0, p) && IsCell(p, lane, block) && Cell(g.1, lane, block) < |cells|
    requires p.maxBlocks <= g.1 && LanesFit(p, lane + 1)
    requires CellReadies(g.0, p, v, w, lane, block, WantedKey(g.0, s, p, lane, block))
    requires var dk := SlotKey(g.0, p, lane, block); Rebinds(v, w, dk, Target(v, dk, WantedKey(g.0, s, p, lane, block)))
    ensures Steady(g, s, p, cells, v, cells[Cell(g.1, lane, block) := physical], w, lane, block)
  {
    LanesFitEach(p, lane + 1, lane);
    forall l: nat, b: nat | Filled(g, s, p, cells, v, l, b) && Earlier(l, b, lane, block)
      ensures Filled(g, s, p, cells[Cell(g.1, lane, block) := physical], w, l, b)
      ensures StateOf(w, w.dir[SlotKey(g.0, p, l, b)]) == StateOf(v, v.dir[SlotKey(g.0, p, l, b)])
    {
      LanesFitEach(p, lane + 1, l);
      FilledStays(g, s, p, cells, v, w, lane, block, WantedKey(g.0, s, p, lane, block), physical, l, b);
    }
  }

  /** Filling one more cell leaves the finished ones finished, when no two cells share a slot. */
  lemma FillingKeepsFilled(g: (Mixer, nat), s: Sharing, p: Packet, cells: seq<nat>, v: View, w: View,
                           lane: nat, block: nat, physical: nat)
    requires SlotsDistinct(g.0, p) && IsCell(p, lane, block) && Cell(g.1, lane, block) < |cells|
    requires p.maxBlocks <= g.1 && LanesFit(p, lane + 1)
    requires FilledUpTo(g, s, p, cells, v, lane, block)
    requires CellReadies(g.0, p, v, w, lane, block, WantedKey(g.0, s, p, lane, block))
    requires var dk := SlotKey(g.0, p, lane, block);
      && Rebinds(v, w, dk, Target(v, dk, WantedKey(g.0, s, p, lane, block)))
      && Placed(w, dk, physical)
    ensures FilledUpTo(g, s, p, cells[Cell(g.1, lane, block) := physical], w, lane, block + 1)
    ensures var dk := SlotKey(g.0, p, lane, block);
      InFlightCells(g.0, p, w, lane, block + 1)
      == InFlightCells(g.0, p, v, lane, block) + if StateOf(w, w.dir[dk]) == InFlight then 1 else 0
  {
    CellsAreSteady(g, s, p, cells, v, w, lane, block, physical);
    OldCellsStay(g, s, p, cells, v, cells[Cell(g.1, lane, block) := physical], w, lane, block, lane, block);
    NewCellIsSettled(v, w, SlotKey(g.0, p, lane, block), WantedKey(g.0, s, p, lane, block), physical);
  }

  // ---- The slots of a packet ----------------------------------------------

  /** The directory slots of a sequence's first `n` logical blocks. */
  ghost function SequenceSlots(mix: Mixer, sequence: nat, n: nat): set<KvKey> {
    if n == 0 then {} else SequenceSlots(mix, sequence, n - 1) + {PrivateKey(mix, sequence, n - 1)}
  }

  /** The directory slots of the first `n` cells of a lane. */
  ghost function LaneSlots(mix: Mixer, p: Packet, lane: nat, n: nat): set<KvKey>
    requires lane < |p.lanes|
  {
    SequenceSlots(mix, p.lanes[lane].sequence, n)
  }

  /** The directory slots of the first `n` lanes. */
  ghost function PacketSlots(mix: Mixer, p: Packet, n: nat): set<KvKey>
    requires n <= |p.lanes|
  {
    if n == 0 then {} else PacketSlots(mix, p, n - 1) + LaneSlots(mix, p, n - 1, LaneBlocks(p, n - 1))
  }

  lemma {:induction false} SlotsGrow(mix: Mixer, sequence: nat, n: nat, m: nat)
    requires n <= m
    ensures SequenceSlots(mix, sequence, n) <= SequenceSlots(mix, sequence, m)
  {
    if n < m {
      SlotsGrow(mix, sequence, n, m - 1);
    }
  }

  lemma {:induction false} PacketSlotsGrow(mix: Mixer, p: Packet, n: nat, m: nat)
    requires n <= m <= |p.lanes|
    ensures PacketSlots(mix, p, n) <= PacketSlots(mix, p, m)
  {
    if n < m {
      PacketSlotsGrow(mix, p, n, m - 1);
    }
  }

  lemma {:induction false} LaneSlotIsCell(mix: Mixer, sequence: nat, n: nat, dk: KvKey)
    ensures dk in SequenceSlots(mix, sequence, n) <==> exists b: nat :: b < n && PrivateKey(mix, sequence, b) == dk
  {
    if n > 0 {
      LaneSlotIsCell(mix, sequence, n - 1, dk);
    }
  }

  /** The slots of a packet are the slots of its cells. */
  lemma {:induction false} PacketSlotIsCell(mix: Mixer, p: Packet, n: nat, dk: KvKey)
    requires n <= p.active <= |p.lanes|
    ensures dk in PacketSlots(mix, p, n) <==>
      exists l: nat, b: nat :: l < n && IsCell(p, l, b) && SlotKey(mix, p, l, b) == dk
  {
    if n > 0 {
      PacketSlotIsCell(mix, p, n - 1, dk);
      LaneSlotIsCell(mix, p.lanes[n - 1].sequence, LaneBlocks(p, n - 1), dk);
      if dk in LaneSlots(mix, p, n - 1, LaneBlocks(p, n - 1)) {
        var b: nat :| b < LaneBlocks(p, n - 1) && PrivateKey(mix, p.lanes[n - 1].sequence, b) == dk;
        assert IsCell(p, n - 1, b) && SlotKey(mix, p, n - 1, b) == dk;
      }
    }
  }

  // ---- The directory a build leaves ----------------------------------------

  /** The key a slot names after asking for `key`: that key, unless the block it named before is pinned. */
  ghost function Granted(dir: map<KvKey, KvKey>, pinned: set<KvKey>, dk: KvKey, key: KvKey): KvKey {
    if dk in dir && dir[dk] != key && dir[dk] in pinned then dir[dk] else key
  }

  lemma TargetIsGranted(v: View, dk: KvKey, key: KvKey)
    ensures Target(v, dk, key) == Granted(v.dir, PinnedBlocks(v), dk, key)
  {
  }

  /** The directory after the first `n` blocks of a lane are bound. */
  ghost function LaneDirectory(mix: Mixer, s: Sharing, p: Packet, dir: map<KvKey, KvKey>, pinned: set<KvKey>,
                               lane: nat, n: nat): map<KvKey, KvKey>
    requires lane < |p.lanes| && n <= LaneBlocks(p, lane)
  {
    if n == 0 then dir
    else
      var before, dk := LaneDirectory(mix, s, p, dir, pinned, lane, n - 1), SlotKey(mix, p, lane, n - 1);
      before[dk := Granted(before, pinned, dk, WantedKey(mix, s, p, lane, n - 1))]
  }

  /** The directory after the first `n` lanes are bound. */
  ghost function PacketDirectory(mix: Mixer, s: Sharing, p: Packet, dir: map<KvKey, KvKey>, pinned: set<KvKey>,
                                 n: nat): map<KvKey, KvKey>
    requires n <= |p.lanes|
  {
    if n == 0 then dir
    else LaneDirectory(mix, s, p, PacketDirectory(mix, s, p, dir, pinned, n - 1), pinned, n - 1, LaneBlocks(p, n - 1))
  }

  /** Cell `(lane, block)` names the key its slot was granted in directory `dir`. */
  ghost predicate GrantedAt(mix: Mixer, s: Sharing, p: Packet, dir: map<KvKey, KvKey>, pinned: set<KvKey>,
                            after: map<KvKey, KvKey>, lane: nat, block: nat)
    requires IsCell(p, lane, block)
  {
    var dk := SlotKey(mix, p, lane, block);
    dk in after && after[dk] == Granted(dir, pinned, dk, WantedKey(mix, s, p, lane, block))
  }

  /** Binding a lane grants its own cells their keys and leaves the slots of all others alone. */
  lemma {:induction false} LaneDirectoryAt(mix: Mixer, s: Sharing, p: Packet, dir: map<KvKey, KvKey>,
                                           pinned: set<KvKey>, lane: nat, n: nat, l: nat, b: nat)
    requires SlotsDistinct(mix, p) && lane < p.active && IsCell(p, l, b) && n <= LaneBlocks(p, lane)
    ensures var after := LaneDirectory(mix, s, p, dir, pinned, lane, n);
      if l == lane && b < n then GrantedAt(mix, s, p, dir, pinned, after, l, b)
      else SameSlot(dir, after, SlotKey(mix, p, l, b))
  {
    if n > 0 {
      LaneDirectoryAt(mix, s, p, dir, pinned, lane, n - 1, l, b);
      assert IsCell(p, lane, n - 1);
    }
  }

  lemma GrantedLater(mix: Mixer, s: Sharing, p: Packet, dir: map<KvKey, KvKey>, pinned: set<KvKey>,
                     before: map<KvKey, KvKey>, after: map<KvKey, KvKey>, l: nat, b: nat)
    requires IsCell(p, l, b)
    ensures SameSlot(before, after, SlotKey(mix, p, l, b)) && GrantedAt(mix, s, p, dir, pinned, before, l, b) ==>
      GrantedAt(mix, s, p, dir, pinned, after, l, b)
    ensures SameSlot(dir, before, SlotKey(mix, p, l, b)) && GrantedAt(mix, s, p, before, pinned, after, l, b) ==>
      GrantedAt(mix, s, p, dir, pinned, after, l, b)
    ensures SameSlot(dir, before, SlotKey(mix, p, l, b)) && SameSlot(before, after, SlotKey(mix, p, l, b)) ==>
      SameSlot(dir, after, SlotKey(mix, p, l, b))
  {
  }

  /** After a build every bound cell names the key its slot was granted in the directory the build started from. */
  lemma {:induction false} PacketDirectoryAt(mix: Mixer, s: Sharing, p: Packet, dir: map<KvKey, KvKey>,
                                             pinned: set<KvKey>, n: nat, l: nat, b: nat)
    requires SlotsDistinct(mix, p) && n <= p.active && IsCell(p, l, b)
    ensures var after := PacketDirectory(mix, s, p, dir, pinned, n);
      if l < n then GrantedAt(mix, s, p, dir, pinned, after, l, b)
      else SameSlot(dir, after, SlotKey(mix, p, l, b))
  {
    if n > 0 {
      var before := PacketDirectory(mix, s, p, dir, pinned, n - 1);
      PacketDirectoryAt(mix, s, p, dir, pinned, n - 1, l, b);
      LaneDirectoryAt(mix, s, p, before, pinned, n - 1, LaneBlocks(p, n - 1), l, b);
      GrantedLater(mix, s, p, dir, pinned, before, PacketDirectory(mix, s, p, dir, pinned, n), l, b);
    }
  }

  /** With distinct slots, nothing but `slots` is disturbed. */
  ghost predicate Confined(mix: Mixer, p: Packet, u: View, v: View, slots: set<KvKey>) {
    SlotsDistinct(mix, p) && p.active <= |p.lanes| ==> Undisturbed(u, v, slots)
  }

  /** `v` is `u` with the first `n` blocks of a lane bound. */
  ghost predicate LaneBound(mix: Mixer, s: Sharing, p: Packet, u: View, v: View, lane: nat, n: nat) {
    && lane < |p.lanes| && n <= LaneBlocks(p, lane) && PinnedBlocks(v) == PinnedBlocks(u)
    && v.dir == LaneDirectory(mix, s, p, u.dir, PinnedBlocks(u), lane, n)
    && Confined(mix, p, u, v, LaneSlots(mix, p, lane, n))
  }

  /** `v` is `u` with the first `n` lanes bound. */
  ghost predicate PacketBound(mix: Mixer, s: Sharing, p: Packet, u: View, v: View, n: nat) {
    && n <= |p.lanes| && PinnedBlocks(v) == PinnedBlocks(u)
    && v.dir == PacketDirectory(mix, s, p, u.dir, PinnedBlocks(u), n)
    && Confined(mix, p, u, v, PacketSlots(mix, p, n))
  }

  ghost function LaneSeal(mix: Mixer, s: Sharing, p: Packet, u: View, v: View, lane: nat, n: nat, depth: nat): nat {
    if depth > 0 then LaneSeal(mix, s, p, u, v, lane, n, depth - 1)
    else if LaneBound(mix, s, p, u, v, lane, n) then 1 else 0
  }

  ghost function PacketSeal(mix: Mixer, s: Sharing, p: Packet, u: View, v: View, n: nat, depth: nat): nat {
    if depth > 0 then PacketSeal(mix, s, p, u, v, n, depth - 1)
    else if PacketBound(mix, s, p, u, v, n) then 1 else 0
  }

  /** `LaneBound`, sealed behind a recursion the verifier does not unroll. */
  ghost predicate LaneFollows(mix: Mixer, s: Sharing, p: Packet, u: View, v: View, lane: nat, n: nat) {
    LaneSeal(mix, s, p, u, v, lane, n, n + 2) == 1
  }

  /** `PacketBound`, sealed behind a recursion the verifier does not unroll. */
  ghost predicate PacketFollows(mix: Mixer, s: Sharing, p: Packet, u: View, v: View, n: nat) {
    PacketSeal(mix, s, p, u, v, n, n + 2) == 1
  }

  lemma {:induction false} OpenLane(mix: Mixer, s: Sharing, p: Packet, u: View, v: View, lane: nat, n: nat, depth: nat)
    ensures LaneSeal(mix, s, p, u, v, lane, n, depth) == 1 <==> LaneBound(mix, s, p, u, v, lane, n)
  {
    if depth > 0 {
      OpenLane(mix, s, p, u, v, lane, n, depth - 1);
    }
  }

  lemma {:induction false} OpenPacket(mix: Mixer, s: Sharing, p: Packet, u: View, v: View, n: nat, depth: nat)
    ensures PacketSeal(mix, s, p, u, v, n, depth) == 1 <==> PacketBound(mix, s, p, u, v, n)
  {
    if depth > 0 {
      OpenPacket(mix, s, p, u, v, n, depth - 1);
    }
  }

  lemma LaneStarts(mix: Mixer, s: Sharing, p: Packet, v: View, lane: nat)
    requires lane < |p.lanes|
    ensures LaneFollows(mix, s, p, v, v, lane, 0)
  {
    NothingDisturbed(v);
    OpenLane(mix, s, p, v, v, lane, 0, 2);
  }

  lemma PacketStarts(mix: Mixer, s: Sharing, p: Packet, v: View)
    ensures PacketFollows(mix, s, p, v, v, 0)
  {
    NothingDisturbed(v);
    OpenPacket(mix, s, p, v, v, 0, 2);
  }

  /** Disturbing the slot of one more cell of a lane disturbs nothing but the lane's slots. */
  lemma LaneIsConfined(mix: Mixer, p: Packet, u: View, v: View, w: View, lane: nat, n: nat)
    requires IsCell(p, lane, n) && Undisturbed(v, w, {SlotKey(mix, p, lane, n)})
    requires Confined(mix, p, u, v, LaneSlots(mix, p, lane, n))
    ensures Confined(mix, p, u, w, LaneSlots(mix, p, lane, n + 1))
  {
    if SlotsDistinct(mix, p) {
      var dk := SlotKey(mix, p, lane, n);
      LaneSlotIsCell(mix, p.lanes[lane].sequence, n, dk);
      forall b: nat | b < n ensures PrivateKey(mix, p.lanes[lane].sequence, b) != dk {
        assert IsCell(p, lane, b) && SlotKey(mix, p, lane, b) == PrivateKey(mix, p.lanes[lane].sequence, b);
      }
      UndisturbedChain(u, v, w, LaneSlots(mix, p, lane, n), {dk});
    }
  }

  /** The slots of a lane are none of the lanes before it. */
  lemma LaneSlotsAreNew(mix: Mixer, p: Packet, lane: nat)
    requires SlotsDistinct(mix, p) && lane < p.active <= |p.lanes|
    ensures PacketSlots(mix, p, lane) !! LaneSlots(mix, p, lane, LaneBlocks(p, lane))
  {
    var sequence, count := p.lanes[lane].sequence, LaneBlocks(p, lane);
    forall dk | dk in PacketSlots(mix, p, lane) ensures dk !in LaneSlots(mix, p, lane, count) {
      PacketSlotIsCell(mix, p, lane, dk);
      LaneSlotIsCell(mix, sequence, count, dk);
      var l: nat, b: nat :| l < lane && IsCell(p, l, b) && SlotKey(mix, p, l, b) == dk;
      forall b': nat | b' < count ensures PrivateKey(mix, sequence, b') != dk {
        assert IsCell(p, lane, b') && SlotKey(mix, p, lane, b') == PrivateKey(mix, sequence, b');
      }
    }
  }

  /** Disturbing the slots of one more lane disturbs nothing but the slots of the lanes so far. */
  lemma PacketIsConfined(mix: Mixer, p: Packet, u: View, v: View, w: View, lane: nat)
    requires lane < p.active <= |p.lanes| && Confined(mix, p, u, v, PacketSlots(mix, p, lane))
    requires Confined(mix, p, v, w, LaneSlots(mix, p, lane, LaneBlocks(p, lane)))
    ensures Confined(mix, p, u, w, PacketSlots(mix, p, lane + 1))
  {
    if SlotsDistinct(mix, p) {
      LaneSlotsAreNew(mix, p, lane);
      UndisturbedChain(u, v, w, PacketSlots(mix, p, lane), LaneSlots(mix, p, lane, LaneBlocks(p, lane)));
    }
  }

  lemma LaneGoesOn(mix: Mixer, s: Sharing, p: Packet, u: View, v: View, w: View, lane: nat, n: nat)
    requires LaneFollows(mix, s, p, u, v, lane, n) && IsCell(p, lane, n) && KeepsPinned(v, w)
    requires var dk := SlotKey(mix, p, lane, n); w.dir == v.dir[dk := Target(v, dk, WantedKey(mix, s, p, lane, n))]
    requires Undisturbed(v, w, {SlotKey(mix, p, lane, n)})
    ensures LaneFollows(mix, s, p, u, w, lane, n + 1)
  {
    OpenLane(mix, s, p, u, v, lane, n, n + 2);
    LaneIsConfined(mix, p, u, v, w, lane, n);
    TargetIsGranted(v, SlotKey(mix, p, lane, n), WantedKey(mix, s, p, lane, n));
    SamePinnedBlocks(v, w);
    OpenLane(mix, s, p, u, w, lane, n + 1, n + 3);
  }

  lemma PacketGoesOn(mix: Mixer, s: Sharing, p: Packet, u: View, v: View, w: View, lane: nat)
    requires PacketFollows(mix, s, p, u, v, lane) && lane < p.active <= |p.lanes|
    requires LaneFollows(mix, s, p, v, w, lane, LaneBlocks(p, lane))
    ensures PacketFollows(mix, s, p, u, w, lane + 1)
  {
    OpenPacket(mix, s, p, u, v, lane, lane + 2);
    OpenLane(mix, s, p, v, w, lane, LaneBlocks(p, lane), LaneBlocks(p, lane) + 2);
    PacketIsConfined(mix, p, u, v, w, lane);
    OpenPacket(mix, s, p, u, w, lane + 1, lane + 3);
  }

  /** A cell that fails has disturbed nothing but its own slot, and the build nothing but the lane's. */
  lemma LaneBreaks(mix: Mixer, s: Sharing, p: Packet, u: View, v: View, w: View, lane: nat, n: nat)
    requires LaneFollows(mix, s, p, u, v, lane, n) && IsCell(p, lane, n)
    requires Undisturbed(v, w, {SlotKey(mix, p, lane, n)})
    ensures Confined(mix, p, u, w, LaneSlots(mix, p, lane, LaneBlocks(p, lane)))
  {
    OpenLane(mix, s, p, u, v, lane, n, n + 2);
    LaneIsConfined(mix, p, u, v, w, lane, n);
    SlotsGrow(mix, p.lanes[lane].sequence, n + 1, LaneBlocks(p, lane));
    if SlotsDistinct(mix, p) {
      UndisturbedGrows(u, w, LaneSlots(mix, p, lane, n + 1), LaneSlots(mix, p, lane, LaneBlocks(p, lane)));
    }
  }

  /** A lane that fails has disturbed nothing but its own slots, and the build nothing but the packet's. */
  lemma PacketBreaks(mix: Mixer, s: Sharing, p: Packet, u: View, v: View, w: View, lane: nat)
    requires PacketFollows(mix, s, p, u, v, lane) && lane < p.active <= |p.lanes|
    requires Confined(mix, p, v, w, LaneSlots(mix, p, lane, LaneBlocks(p, lane)))
    ensures Confined(mix, p, u, w, PacketSlots(mix, p, p.active))
  {
    OpenPacket(mix, s, p, u, v, lane, lane + 2);
    PacketIsConfined(mix, p, u, v, w, lane);
    PacketSlotsGrow(mix, p, lane + 1, p.active);
    if SlotsDistinct(mix, p) {
      UndisturbedGrows(u, w, PacketSlots(mix, p, lane + 1), PacketSlots(mix, p, p.active));
    }
  }

  /** What a build finds: everything, or nothing when a new generation forgets the state. */
  ghost function Kept(v: View, kept: bool): View {
    if kept then v else v.(dir := map[], blk := map[])
  }

  /**
   * `v` has the directory a build of `p` leaves that starts from `u`, or from nothing when `u` is forgotten, and
   * the build disturbed nothing but the slots of its own cells.
   */
  ghost predicate Binds(mix: Mixer, s: Sharing, p: Packet, u: View, kept: bool, v: View)
    requires p.active <= |p.lanes|
  {
    && v.dir == PacketDirectory(mix, s, p, Kept(u, kept).dir, PinnedBlocks(Kept(u, kept)), p.active)
    && Confined(mix, p, Kept(u, kept), v, PacketSlots(mix, p, p.active))
  }

  /** What a build disturbs, it disturbs of what it finds. */
  lemma StartIsSame(mix: Mixer, p: Packet, u: View, kept: bool, m: View, epoch: nat, v: View, slots: set<KvKey>)
    requires Confined(mix, p, m.(epoch := epoch), v, slots) && if kept then m == u else Idle(m)
    ensures Confined(mix, p, Kept(u, kept), v, slots)
  {
    if SlotsDistinct(mix, p) && p.active <= |p.lanes| {
      UndisturbedSame(m.(epoch := epoch), Kept(u, kept), v, slots);
    }
  }

  lemma PacketEnds(mix: Mixer, s: Sharing, p: Packet, u: View, kept: bool, m: View, epoch: nat, v: View)
    requires p.active <= |p.lanes| && PacketFollows(mix, s, p, m.(epoch := epoch), v, p.active)
    requires if kept then m == u else Idle(m)
    ensures Binds(mix, s, p, u, kept, v)
  {
    OpenPacket(mix, s, p, m.(epoch := epoch), v, p.active, p.active + 2);
    forall bk ensures IsPinned(m.(epoch := epoch), bk) <==> IsPinned(m, bk) {
    }
    assert PinnedBlocks(m.(epoch := epoch)) == PinnedBlocks(m);
    assert kept || PinnedBlocks(Kept(u, kept)) == {};
    assert Idle(m) ==> m.dir == map[] && m.blk == map[] && PinnedBlocks(m) == {};
    StartIsSame(mix, p, u, kept, m, epoch, v, PacketSlots(mix, p, p.active));
  }

  // ---- Counting blocks -----------------------------------------------------

  /** Blocks of the first `n` lanes. */
  function TotalBlocks(p: Packet, n: nat): nat
    requires n <= |p.lanes|
  {
    if n == 0 then 0 else TotalBlocks(p, n - 1) + LaneBlocks(p, n - 1)
  }

  /** Blocks of the lanes from `n` on. */
  function RestBlocks(p: Packet, n: nat): nat
    requires p.active <= |p.lanes|
    decreases p.active - n
  {
    if n >= p.active then 0 else LaneBlocks(p, n) + RestBlocks(p, n + 1)
  }

  lemma {:induction false} RestIsTotal(p: Packet, n: nat)
    requires n <= p.active <= |p.lanes|
    ensures TotalBlocks(p, n) + RestBlocks(p, n) == TotalBlocks(p, p.active)
    decreases p.active - n
  {
    if n < p.active {
      RestIsTotal(p, n + 1);
      assert TotalBlocks(p, n + 1) == TotalBlocks(p, n) + LaneBlocks(p, n);
    }
  }

  // ---- Admission -----------------------------------------------------------

  /** How many of a lane's first `n` slots are not bound, counting repeats. */
  ghost function NewSlots(dir: map<KvKey, KvKey>, mix: Mixer, p: Packet, lane: nat, n: nat): nat
    requires lane < |p.lanes|
  {
    if n == 0 then 0
    else NewSlots(dir, mix, p, lane, n - 1) + if SlotKey(mix, p, lane, n - 1) in dir then 0 else 1
  }

  /** How many of a lane's first `n` cells ask for a block that does not exist, counting repeats. */
  ghost function NewBlocks(blk: map<KvKey, Block>, mix: Mixer, s: Sharing, p: Packet, lane: nat, n: nat): nat
    requires lane < |p.lanes| && n <= LaneBlocks(p, lane)
  {
    if n == 0 then 0
    else NewBlocks(blk, mix, s, p, lane, n - 1) + if WantedKey(mix, s, p, lane, n - 1) in blk then 0 else 1
  }

  ghost function AllNewSlots(dir: map<KvKey, KvKey>, mix: Mixer, p: Packet, n: nat): nat
    requires n <= |p.lanes|
  {
    if n == 0 then 0 else AllNewSlots(dir, mix, p, n - 1) + NewSlots(dir, mix, p, n - 1, LaneBlocks(p, n - 1))
  }

  ghost function AllNewBlocks(blk: map<KvKey, Block>, mix: Mixer, s: Sharing, p: Packet, n: nat): nat
    requires n <= |p.lanes|
  {
    if n == 0 then 0 else AllNewBlocks(blk, mix, s, p, n - 1) + NewBlocks(blk, mix, s, p, n - 1, LaneBlocks(p, n - 1))
  }

  /** No one of the first `n` lanes needs more than `limit` blocks. */
  predicate LanesBelow(p: Packet, n: nat, limit: nat)
    requires n <= |p.lanes|
  {
    n == 0 || (LanesBelow(p, n - 1, limit) && LaneBlocks(p, n - 1) <= limit)
  }

  lemma {:induction false} LanesFailAt(p: Packet, n: nat, lane: nat, limit: nat)
    requires lane < n <= |p.lanes|
    requires LaneBlocks(p, lane) == 0 || LaneBlocks(p, lane) > p.maxBlocks || LaneBlocks(p, lane) > limit
    ensures !LanesFit(p, n) || !LanesBelow(p, n, limit)
  {
    if lane < n - 1 {
      LanesFailAt(p, n - 1, lane, limit);
    }
  }

  /** A packet fits without sharing, or once the slots already bound and the blocks already there are counted. */
  ghost predicate Fits(v: View, mix: Mixer, s: Sharing, p: Packet, slots: nat, blocks: nat)
    requires p.active <= |p.lanes|
  {
    && LanesFit(p, p.active)
    && (|| (|v.dir| + TotalBlocks(p, p.active) <= slots && TotalBlocks(p, p.active) <= blocks)
        || (&& LanesBelow(p, p.active, blocks)
            && |v.dir| + AllNewSlots(v.dir, mix, p, p.active) <= slots
            && AllNewBlocks(v.blk, mix, s, p, p.active) <= blocks))
  }

  lemma {:induction false} NewSlotsAreFew(dir: map<KvKey, KvKey>, mix: Mixer, p: Packet, lane: nat, n: nat)
    requires lane < |p.lanes|
    ensures NewSlots(dir, mix, p, lane, n) <= n
  {
    if n > 0 {
      NewSlotsAreFew(dir, mix, p, lane, n - 1);
    }
  }

  lemma {:induction false} AllNewSlotsAreFew(dir: map<KvKey, KvKey>, mix: Mixer, p: Packet, n: nat)
    requires n <= |p.lanes|
    ensures AllNewSlots(dir, mix, p, n) <= TotalBlocks(p, n)
  {
    if n > 0 {
      AllNewSlotsAreFew(dir, mix, p, n - 1);
      NewSlotsAreFew(dir, mix, p, n - 1, LaneBlocks(p, n - 1));
    }
  }

  /** Binding a lane's slots adds no more keys than were counted. */
  lemma {:induction false} LaneAddsCounted(dir: map<KvKey, KvKey>, keys: set<KvKey>, mix: Mixer, p: Packet, lane: nat,
                                           n: nat)
    requires lane < |p.lanes| && dir.Keys <= keys
    ensures |keys + LaneSlots(mix, p, lane, n)| <= |keys| + NewSlots(dir, mix, p, lane, n)
  {
    if n == 0 {
      assert keys + LaneSlots(mix, p, lane, n) == keys;
    } else {
      LaneAddsCounted(dir, keys, mix, p, lane, n - 1);
      var dk, before := SlotKey(mix, p, lane, n - 1), keys + LaneSlots(mix, p, lane, n - 1);
      assert keys + LaneSlots(mix, p, lane, n) == before + {dk};
      assert dk in dir ==> before + {dk} == before;
    }
  }

  lemma AllNewSlotsGrow(dir: map<KvKey, KvKey>, mix: Mixer, p: Packet, n: nat)
    requires n < |p.lanes|
    ensures AllNewSlots(dir, mix, p, n + 1) == AllNewSlots(dir, mix, p, n) + NewSlots(dir, mix, p, n, LaneBlocks(p, n))
    ensures PacketSlots(mix, p, n + 1) == PacketSlots(mix, p, n) + LaneSlots(mix, p, n, LaneBlocks(p, n))
  {
  }

  /** One lane more adds no more keys than were counted for it. */
  lemma OneLaneMore(dir: map<KvKey, KvKey>, slots: set<KvKey>, counted: nat, mix: Mixer, p: Packet, lane: nat, n: nat)
    requires lane < |p.lanes| && |dir.Keys + slots| <= |dir| + counted
    ensures |dir.Keys + (slots + LaneSlots(mix, p, lane, n))| <= |dir| + (counted + NewSlots(dir, mix, p, lane, n))
  {
    LaneAddsCounted(dir, dir.Keys + slots, mix, p, lane, n);
    assert dir.Keys + (slots + LaneSlots(mix, p, lane, n)) == dir.Keys + slots + LaneSlots(mix, p, lane, n);
  }

  ghost function CountSeal(dir: map<KvKey, KvKey>, mix: Mixer, p: Packet, n: nat, depth: nat): nat
    requires n <= |p.lanes|
  {
    if depth > 0 then CountSeal(dir, mix, p, n, depth - 1)
    else if |dir.Keys + PacketSlots(mix, p, n)| <= |dir| + AllNewSlots(dir, mix, p, n) then 1 else 0
  }

  lemma {:induction false} UnsealCount(dir: map<KvKey, KvKey>, mix: Mixer, p: Packet, n: nat, depth: nat)
    requires n <= |p.lanes|
    ensures CountSeal(dir, mix, p, n, depth) == 1 <==>
      |dir.Keys + PacketSlots(mix, p, n)| <= |dir| + AllNewSlots(dir, mix, p, n)
  {
    if depth > 0 {
      UnsealCount(dir, mix, p, n, depth - 1);
    }
  }

  lemma LaneIsCounted(dir: map<KvKey, KvKey>, mix: Mixer, p: Packet, n: nat, depth: nat)
    requires n < |p.lanes| && CountSeal(dir, mix, p, n, depth) == 1
    ensures CountSeal(dir, mix, p, n + 1, depth) == 1
  {
    UnsealCount(dir, mix, p, n, depth);
    UnsealCount(dir, mix, p, n + 1, depth);
    AllNewSlotsGrow(dir, mix, p, n);
    OneLaneMore(dir, PacketSlots(mix, p, n), AllNewSlots(dir, mix, p, n), mix, p, n, LaneBlocks(p, n));
  }

  /** Binding the slots of the first `n` lanes adds no more keys than were counted. */
  lemma {:induction false} LanesAddCounted(dir: map<KvKey, KvKey>, mix: Mixer, p: Packet, n: nat, depth: nat)
    requires n <= |p.lanes| && depth > 2
    ensures CountSeal(dir, mix, p, n, depth) == 1
  {
    if n == 0 {
      assert dir.Keys + PacketSlots(mix, p, n) == dir.Keys;
      UnsealCount(dir, mix, p, n, depth);
    } else {
      LanesAddCounted(dir, mix, p, n - 1, depth);
      LaneIsCounted(dir, mix, p, n - 1, depth);
    }
  }

  /** Once a packet that fits has bound all its slots, the directory is within its limit. */
  lemma FittingPacketBindsWithinLimit(v: View, mix: Mixer, s: Sharing, p: Packet, slots: nat, blocks: nat)
    requires p.active <= |p.lanes| && Fits(v, mix, s, p, slots, blocks)
    ensures |v.dir.Keys + PacketSlots(mix, p, p.active)| <= slots
  {
    LanesAddCounted(v.dir, mix, p, p.active, 3);
    UnsealCount(v.dir, mix, p, p.active, 3);
    AllNewSlotsAreFew(v.dir, mix, p, p.active);
  }

  // ---- What a pass over the cells has established --------------------------

  /** The block of a cell is on the GPU. */
  ghost predicate CellOnGpu(mix: Mixer, p: Packet, v: View, lane: nat, block: nat) {
    && lane < |p.lanes|
    && var dk := SlotKey(mix, p, lane, block); dk in v.dir && v.dir[dk] in v.blk && v.blk[v.dir[dk]].onGpu
  }

  /** The blocks of the first `n` cells of a lane are on the GPU. */
  ghost predicate LaneOnGpu(mix: Mixer, p: Packet, v: View, lane: nat, n: nat) {
    n == 0 || (LaneOnGpu(mix, p, v, lane, n - 1) && CellOnGpu(mix, p, v, lane, n - 1))
  }

  /** The blocks of the first `n` lanes are on the GPU. */
  ghost predicate LanesOnGpu(mix: Mixer, p: Packet, v: View, n: nat)
    requires n <= |p.lanes|
  {
    n == 0 || (LanesOnGpu(mix, p, v, n - 1) && LaneOnGpu(mix, p, v, n - 1, LaneBlocks(p, n - 1)))
  }

  /** The same slots name the same blocks, on the GPU or not as before. */
  ghost predicate SameResidence(v: View, w: View) {
    w.dir == v.dir && w.blk.Keys == v.blk.Keys && forall bk :: bk in v.blk ==> w.blk[bk].onGpu == v.blk[bk].onGpu
  }

  lemma {:induction false} LaneOnGpuCell(mix: Mixer, p: Packet, v: View, lane: nat, n: nat, block: nat)
    requires block < n && LaneOnGpu(mix, p, v, lane, n)
    ensures CellOnGpu(mix, p, v, lane, block)
  {
    if block < n - 1 {
      LaneOnGpuCell(mix, p, v, lane, n - 1, block);
    }
  }

  lemma {:induction false} LanesOnGpuLane(mix: Mixer, p: Packet, v: View, n: nat, lane: nat)
    requires lane < n <= |p.lanes| && LanesOnGpu(mix, p, v, n)
    ensures LaneOnGpu(mix, p, v, lane, LaneBlocks(p, lane))
  {
    if lane < n - 1 {
      LanesOnGpuLane(mix, p, v, n - 1, lane);
    }
  }

  lemma {:induction false} LaneOnGpuStays(mix: Mixer, p: Packet, v: View, w: View, lane: nat, n: nat)
    requires LaneOnGpu(mix, p, v, lane, n) && SameResidence(v, w)
    ensures LaneOnGpu(mix, p, w, lane, n)
  {
    if n > 0 {
      LaneOnGpuStays(mix, p, v, w, lane, n - 1);
    }
  }

  lemma {:induction false} LanesOnGpuStay(mix: Mixer, p: Packet, v: View, w: View, n: nat)
    requires n <= |p.lanes| && LanesOnGpu(mix, p, v, n) && SameResidence(v, w)
    ensures LanesOnGpu(mix, p, w, n)
  {
    if n > 0 {
      LanesOnGpuStay(mix, p, v, w, n - 1);
      LaneOnGpuStays(mix, p, v, w, n - 1, LaneBlocks(p, n - 1));
    }
  }

  lemma LaneOnGpuFails(mix: Mixer, p: Packet, v: View, lane: nat, n: nat, block: nat)
    requires block < n && !CellOnGpu(mix, p, v, lane, block)
    ensures !LaneOnGpu(mix, p, v, lane, n)
  {
    if LaneOnGpu(mix, p, v, lane, n) {
      LaneOnGpuCell(mix, p, v, lane, n, block);
    }
  }

  lemma LaneOnGpuSame(mix: Mixer, p: Packet, v: View, w: View, lane: nat, n: nat)
    requires SameResidence(v, w)
    ensures LaneOnGpu(mix, p, v, lane, n) <==> LaneOnGpu(mix, p, w, lane, n)
  {
    if LaneOnGpu(mix, p, v, lane, n) {
      LaneOnGpuStays(mix, p, v, w, lane, n);
    }
    if LaneOnGpu(mix, p, w, lane, n) {
      LaneOnGpuStays(mix, p, w, v, lane, n);
    }
  }

  lemma LanesFailToMark(mix: Mixer, p: Packet, v: View, n: nat, lane: nat)
    requires lane < n <= |p.lanes|
    requires !LaneFits(p, lane) || !LaneOnGpu(mix, p, v, lane, LaneBlocks(p, lane))
    ensures !LanesFit(p, n) || !LanesOnGpu(mix, p, v, n)
  {
    if LanesFit(p, n) && LanesOnGpu(mix, p, v, n) {
      LanesFitEach(p, n, lane);
      LanesOnGpuLane(mix, p, v, n, lane);
    }
  }

  /** Block `bk` is on the GPU and in flight. */
  ghost predicate InFlightBlock(v: View, bk: KvKey) {
    bk in v.blk && v.blk[bk].onGpu && v.blk[bk].physical < |v.states| && v.states[v.blk[bk].physical] == InFlight
  }

  // ---- Written positions ---------------------------------------------------

  /** `x as u32` */
  function Truncated(x: nat): (r: nat)
    ensures r <= x && (x <= 0xFFFF_FFFF ==> r == x)
  {
    x % 0x1_0000_0000
  }

  /** The last position a lane writes, in wrapping 64-bit arithmetic. */
  function WriteEnd(position: nat, written: nat): (r: nat)
    requires written > 0
    ensures position + written <= 0x1_0000_0000_0000_0000 ==> r == position + written - 1
  {
    (position + written - 1) % 0x1_0000_0000_0000_0000
  }
}
