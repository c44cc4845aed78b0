/**
 * The prefix cache: entries and sequence bindings in fixed tables with intrusive
 * free lists, over an arena it owns. Every operation keeps entries, bindings and
 * arena in agreement, and a failing one leaves what was there before it.
 */
module PrefixCache {
  import opened Blocks
  import opened Results
  import opened Sequences
  import opened KvArena
  import opened CacheView
  import opened CacheTransactions
  import opened CachePrompts
  import opened CacheCapacity
  import opened CacheRoom
  import opened CacheStamps
  import opened CacheSteps
  import opened CacheDemands
  import opened CacheSharing

  const MAX_BLOCK_TOKENS := 256

  // ---- Free lists ----------------------------------------------------------

  ghost function LinkAt(free: seq<nat>, i: nat): nat {
    if i < |free| then free[i] else NONE
  }

  /** `links` and `head` thread the slots of `free`, in order. */
  ghost predicate Threads(links: seq<nat>, head: nat, free: seq<nat>) {
    && head == LinkAt(free, 0)
    && forall i :: 0 <= i < |free| ==> free[i] < |links| && links[free[i]] == LinkAt(free, i + 1)
  }

  lemma PopThread(links: seq<nat>, head: nat, free: seq<nat>, link: nat)
    requires Threads(links, head, free) && NoRepeats(free) && free != []
    ensures head == free[0] < |links| && Threads(links[head := link], links[head], free[1..])
  {
    var rest := free[1..];
    forall i | 0 <= i < |rest| ensures rest[i] < |links| && links[head := link][rest[i]] == LinkAt(rest, i + 1) {
      assert rest[i] == free[i + 1];
    }
  }

  lemma PushThread(links: seq<nat>, head: nat, free: seq<nat>, k: nat)
    requires Threads(links, head, free) && k < |links| && k !in free
    ensures Threads(links[k := head], k, [k] + free)
  {
    var longer := [k] + free;
    forall i | 0 <= i < |longer| ensures longer[i] < |links| && links[k := head][longer[i]] == LinkAt(longer, i + 1) {
      if i > 0 {
        assert longer[i] == free[i - 1];
      }
    }
  }

  /** The links of a list of all `n` slots in order. */
  lemma FreshThread(links: seq<nat>, n: nat)
    requires |links| == n < NONE && n > 0
    requires forall i :: 0 <= i < n ==> links[i] == if i + 1 < n then i + 1 else NONE
    ensures Threads(links, 0, seq(n, i => i))
  {
  }

  // ---- State ---------------------------------------------------------------

  datatype Core = Core(
    entries: seq<Entry>,
    entryLinks: seq<nat>,
    entryHead: nat,
    bindings: seq<Binding>,
    bindingLinks: seq<nat>,
    bindingHead: nat,
    tick: nat,
    epoch: nat,
    lookaheadEpoch: nat)

  function TimesOf(c: Core): Times {
    Times(c.entries, c.tick, c.lookaheadEpoch)
  }

  /** What the cache knows of the arena's blocks. */
  ghost function Holds(blocks: seq<Block>): (h: seq<Hold>)
    ensures |h| == |blocks| && forall i :: 0 <= i < |blocks| ==> h[i] == Hold(blocks[i].inUse, blocks[i].refs)
  {
    if blocks == [] then []
    else
      var last := blocks[|blocks| - 1];
      Holds(blocks[..|blocks| - 1]) + [Hold(last.inUse, last.refs)]
  }

  lemma HoldsAfterUpdate(blocks: seq<Block>, p: nat, b: Block)
    requires p < |blocks|
    ensures Holds(blocks[p := b]) == Holds(blocks)[p := Hold(b.inUse, b.refs)]
  {
  }

  lemma SameHolds(blocks: seq<Block>, after: seq<Block>)
    requires |after| == |blocks| && forall i :: 0 <= i < |blocks| ==> SameHolding(blocks[i], after[i])
    ensures Holds(after) == Holds(blocks)
  {
  }

  ghost function Abs(c: Core, blocks: seq<Block>, freeEntries: seq<nat>, freeBindings: seq<nat>): View {
    View(c.entries, c.bindings, Holds(blocks), freeEntries, freeBindings, c.epoch)
  }

  ghost predicate Threaded(c: Core, freeEntries: seq<nat>, freeBindings: seq<nat>) {
    && |c.entryLinks| == |c.entries| < NONE && |c.bindingLinks| == |c.bindings| < NONE
    && Threads(c.entryLinks, c.entryHead, freeEntries) && Threads(c.bindingLinks, c.bindingHead, freeBindings)
  }

  /** No entry in use is stamped later than the clock, or protected by a lookahead to come. */
  predicate Clocked(c: Core) {
    forall i :: 0 <= i < |c.entries| && c.entries[i].valid ==>
      c.entries[i].tick <= c.tick && c.entries[i].lookaheadEpoch <= c.lookaheadEpoch
  }

  /** Everything agrees: threads, arena counters, stamps, and the view. */
  ghost predicate InOrder(c: Core, a: Arena, freeEntries: seq<nat>, freeBindings: seq<nat>) {
    && ArenaOk(a) && Threaded(c, freeEntries, freeBindings) && Clocked(c)
    && Coherent(Abs(c, a.blocks, freeEntries, freeBindings))
  }

  ghost function OrderSeal(c: Core, a: Arena, freeEntries: seq<nat>, freeBindings: seq<nat>, n: nat): nat {
    if n > 0 then OrderSeal(c, a, freeEntries, freeBindings, n - 1)
    else if InOrder(c, a, freeEntries, freeBindings) then 1 else 0
  }

  /** `InOrder`, sealed behind a recursion the verifier does not unroll. */
  ghost predicate Good(c: Core, a: Arena, freeEntries: seq<nat>, freeBindings: seq<nat>) {
    OrderSeal(c, a, freeEntries, freeBindings, c.epoch + 2) == 1
  }

  lemma {:induction false} UnsealOrder(c: Core, a: Arena, freeEntries: seq<nat>, freeBindings: seq<nat>, n: nat)
    ensures OrderSeal(c, a, freeEntries, freeBindings, n) == 1 <==> InOrder(c, a, freeEntries, freeBindings)
  {
    if n > 0 {
      UnsealOrder(c, a, freeEntries, freeBindings, n - 1);
    }
  }

  lemma OpenGood(c: Core, a: Arena, freeEntries: seq<nat>, freeBindings: seq<nat>)
    ensures Good(c, a, freeEntries, freeBindings) <==> InOrder(c, a, freeEntries, freeBindings)
  {
    UnsealOrder(c, a, freeEntries, freeBindings, c.epoch + 2);
  }

  /** What a good state's free-list heads are. */
  lemma GoodHeads(c: Core, a: Arena, freeEntries: seq<nat>, freeBindings: seq<nat>)
    requires Good(c, a, freeEntries, freeBindings)
    ensures ArenaOk(a) && Coherent(Abs(c, a.blocks, freeEntries, freeBindings))
    ensures |c.entryLinks| == |c.entries| < NONE && |c.bindingLinks| == |c.bindings| < NONE
    ensures c.entryHead == LinkAt(freeEntries, 0) && c.bindingHead == LinkAt(freeBindings, 0)
  {
    OpenGood(c, a, freeEntries, freeBindings);
  }

  /** Nothing but time stands still. */
  predicate SameClock(c: Core, d: Core) {
    && d.epoch == c.epoch && d.lookaheadEpoch == c.lookaheadEpoch
    && |d.entries| == |c.entries| && |d.bindings| == |c.bindings|
  }

  /** The clock of a good state is ahead of every stamp. */
  lemma GoodClock(c: Core, a: Arena, freeEntries: seq<nat>, freeBindings: seq<nat>)
    requires Good(c, a, freeEntries, freeBindings)
    ensures Clocked(c)
  {
    OpenGood(c, a, freeEntries, freeBindings);
  }

  // ---- Steps keep order ----------------------------------------------------

  /** Entry `i` gains binding `k`. */
  function WithBinding(c: Core, k: nat, i: nat, sequence: nat, epoch: nat, pending: bool): Core
    requires k < |c.bindings| == |c.bindingLinks| && i < |c.entries|
  {
    var e := c.entries[i];
    c.(bindingHead := c.bindingLinks[k], bindingLinks := c.bindingLinks[k := 0],
       bindings := c.bindings[k := BindingFor(e, i, sequence, epoch, pending)],
       entries := c.entries[i := e.(refs := e.refs + 1)])
  }

  lemma BindingAbs(c: Core, blocks: seq<Block>, after: seq<Block>, freeEntries: seq<nat>, freeBindings: seq<nat>,
                   i: nat, sequence: nat, epoch: nat, pending: bool)
    requires i < |c.entries| && c.entries[i].physical < |blocks| && |c.bindings| == |c.bindingLinks|
    requires freeBindings != [] && freeBindings[0] < |c.bindings|
    requires |after| == |blocks| && after == blocks[c.entries[i].physical := after[c.entries[i].physical]]
    requires after[c.entries[i].physical].inUse == blocks[c.entries[i].physical].inUse
    requires after[c.entries[i].physical].refs == blocks[c.entries[i].physical].refs + 1
    ensures Abs(WithBinding(c, freeBindings[0], i, sequence, epoch, pending), after, freeEntries, freeBindings[1..])
            == Bound(Abs(c, blocks, freeEntries, freeBindings), i, sequence, epoch, pending)
  {
    HoldsAfterUpdate(blocks, c.entries[i].physical, after[c.entries[i].physical]);
  }

  /** Binding `k` is given up. */
  function WithoutBinding(c: Core, k: nat): Core
    requires k < |c.bindings| == |c.bindingLinks| && c.bindings[k].entry < |c.entries|
    requires c.entries[c.bindings[k].entry].refs > 0
  {
    var i := c.bindings[k].entry;
    c.(entries := c.entries[i := c.entries[i].(refs := c.entries[i].refs - 1)], bindings := c.bindings[k := NO_BINDING],
       bindingLinks := c.bindingLinks[k := c.bindingHead], bindingHead := k)
  }

  lemma UnbindingAbs(c: Core, blocks: seq<Block>, after: seq<Block>, freeEntries: seq<nat>, freeBindings: seq<nat>,
                     k: nat)
    requires |c.bindings| == |c.bindingLinks| && Releasable(Abs(c, blocks, freeEntries, freeBindings), k)
    requires |after| == |blocks| && after == blocks[c.bindings[k].physical := after[c.bindings[k].physical]]
    requires after[c.bindings[k].physical].inUse == blocks[c.bindings[k].physical].inUse
    requires after[c.bindings[k].physical].refs == blocks[c.bindings[k].physical].refs - 1
    ensures Abs(WithoutBinding(c, k), after, freeEntries, [k] + freeBindings)
            == Unbound(Abs(c, blocks, freeEntries, freeBindings), k)
  {
    HoldsAfterUpdate(blocks, c.bindings[k].physical, after[c.bindings[k].physical]);
  }

  lemma BindingIsGood(c: Core, a: Arena, b: Arena, freeEntries: seq<nat>, freeBindings: seq<nat>, i: nat, sequence: nat,
                      epoch: nat, pending: bool)
    requires Good(c, a, freeEntries, freeBindings) && i < |c.entries| && c.entries[i].valid && freeBindings != []
    requires epoch <= c.epoch
    requires c.entries[i].pending ==> epoch == c.entries[i].reservationEpoch
    requires forall k: nat :: !At(Abs(c, a.blocks, freeEntries, freeBindings), k, sequence, c.entries[i].first)
    requires EpochIs(Abs(c, a.blocks, freeEntries, freeBindings), epoch, sequence)
    requires ArenaOk(b) && c.entries[i].physical < |a.blocks|
    requires var held := a.blocks[c.entries[i].physical];
      b.blocks == a.blocks[c.entries[i].physical := held.(refs := held.refs + 1, lastUsed := a.epoch + 1)]
    ensures freeBindings[0] < |c.bindings| == |c.bindingLinks| && c.bindingHead == freeBindings[0]
    ensures var d := WithBinding(c, freeBindings[0], i, sequence, epoch, pending);
      && Good(d, b, freeEntries, freeBindings[1..])
      && Binds(Abs(c, a.blocks, freeEntries, freeBindings), Abs(d, b.blocks, freeEntries, freeBindings[1..]),
               sequence, i, epoch, pending)
  {
    var v := Abs(c, a.blocks, freeEntries, freeBindings);
    OpenGood(c, a, freeEntries, freeBindings);
    NextFree(v);
    BoundIsCoherent(v, i, sequence, epoch, pending);
    FreeListsAreClean(v);
    PopThread(c.bindingLinks, c.bindingHead, freeBindings, 0);
    BindingAbs(c, a.blocks, b.blocks, freeEntries, freeBindings, i, sequence, epoch, pending);
    OpenGood(WithBinding(c, freeBindings[0], i, sequence, epoch, pending), b, freeEntries, freeBindings[1..]);
  }

  /** A binding in use can be given up. */
  lemma BindingIsReleasable(c: Core, a: Arena, freeEntries: seq<nat>, freeBindings: seq<nat>, k: nat)
    requires Good(c, a, freeEntries, freeBindings) && k < |c.bindings| && c.bindings[k].valid
    ensures Releasable(Abs(c, a.blocks, freeEntries, freeBindings), k) && |c.bindings| == |c.bindingLinks|
    ensures var p := c.bindings[k].physical; p < |a.blocks| && a.blocks[p].inUse && a.blocks[p].refs > 0
  {
    OpenGood(c, a, freeEntries, freeBindings);
    UsedBinding(Abs(c, a.blocks, freeEntries, freeBindings), k);
  }

  lemma UnbindingIsGood(c: Core, a: Arena, b: Arena, freeEntries: seq<nat>, freeBindings: seq<nat>, k: nat)
    requires Good(c, a, freeEntries, freeBindings) && k < |c.bindings| == |c.bindingLinks| && c.bindings[k].valid
    requires Releasable(Abs(c, a.blocks, freeEntries, freeBindings), k) && ArenaOk(b)
    requires var held := a.blocks[c.bindings[k].physical];
      b.blocks == a.blocks[c.bindings[k].physical := held.(refs := held.refs - 1, lastUsed := a.epoch + 1)]
    ensures var d := WithoutBinding(c, k);
      && Good(d, b, freeEntries, [k] + freeBindings)
      && Abs(d, b.blocks, freeEntries, [k] + freeBindings) == Unbound(Abs(c, a.blocks, freeEntries, freeBindings), k)
  {
    var v, d := Abs(c, a.blocks, freeEntries, freeBindings), WithoutBinding(c, k);
    OpenGood(c, a, freeEntries, freeBindings);
    UnboundIsCoherent(v, k);
    NotFreeBinding(v, k);
    PushThread(c.bindingLinks, c.bindingHead, freeBindings, k);
    UnbindingAbs(c, a.blocks, b.blocks, freeEntries, freeBindings, k);
    OpenGood(d, b, freeEntries, [k] + freeBindings);
  }

  /** Entry `i` is given up. */
  function WithoutEntry(c: Core, i: nat): Core
    requires i < |c.entries| == |c.entryLinks|
  {
    c.(entries := c.entries[i := NO_ENTRY], entryLinks := c.entryLinks[i := c.entryHead], entryHead := i)
  }

  /** An entry in use owns a block that counts its references. */
  lemma EntryIsOwner(c: Core, a: Arena, freeEntries: seq<nat>, freeBindings: seq<nat>, i: nat)
    requires Good(c, a, freeEntries, freeBindings) && i < |c.entries| && c.entries[i].valid
    ensures |c.entries| == |c.entryLinks| && EntryStored(Abs(c, a.blocks, freeEntries, freeBindings), i)
    ensures var p := c.entries[i].physical; p < |a.blocks| && a.blocks[p].inUse && a.blocks[p].refs == c.entries[i].refs
  {
    OpenGood(c, a, freeEntries, freeBindings);
    UsedEntry(Abs(c, a.blocks, freeEntries, freeBindings), i);
  }

  lemma InvalidationIsGood(c: Core, a: Arena, b: Arena, freeEntries: seq<nat>, freeBindings: seq<nat>, i: nat)
    requires Good(c, a, freeEntries, freeBindings) && i < |c.entries| == |c.entryLinks| && c.entries[i].valid
    requires c.entries[i].refs == 0
    requires ArenaOk(b) && c.entries[i].physical < |a.blocks| == |b.blocks|
    requires b.blocks == a.blocks[c.entries[i].physical := b.blocks[c.entries[i].physical]]
    requires !b.blocks[c.entries[i].physical].inUse && b.blocks[c.entries[i].physical].refs == 0
    ensures var d := WithoutEntry(c, i);
      && Good(d, b, [i] + freeEntries, freeBindings)
      && Abs(d, b.blocks, [i] + freeEntries, freeBindings)
         == Invalidated(Abs(c, a.blocks, freeEntries, freeBindings), i)
  {
    var v, d := Abs(c, a.blocks, freeEntries, freeBindings), WithoutEntry(c, i);
    OpenGood(c, a, freeEntries, freeBindings);
    InvalidatedIsCoherent(v, i);
    NotFree(v, i);
    PushThread(c.entryLinks, c.entryHead, freeEntries, i);
    HoldsAfterUpdate(a.blocks, c.entries[i].physical, b.blocks[c.entries[i].physical]);
    assert Abs(d, b.blocks, [i] + freeEntries, freeBindings) == Invalidated(v, i);
    OpenGood(d, b, [i] + freeEntries, freeBindings);
  }

  /** The next free entry becomes `e`. */
  function WithEntry(c: Core, i: nat, e: Entry): Core
    requires i < |c.entries| == |c.entryLinks|
  {
    c.(entries := c.entries[i := e], entryHead := c.entryLinks[i], entryLinks := c.entryLinks[i := 0], tick := e.tick)
  }

  lemma InstallationIsGood(c: Core, a: Arena, b: Arena, freeEntries: seq<nat>, freeBindings: seq<nat>, e: Entry)
    requires Good(c, a, freeEntries, freeBindings) && freeEntries != [] && e.valid && e.refs == 0
    requires e.tick == c.tick + 1 && e.lookaheadEpoch == 0
    requires e.pending ==> e.reservationEpoch <= c.epoch
    requires ArenaOk(b) && e.physical < |a.blocks| == |b.blocks| && !a.blocks[e.physical].inUse
    requires b.blocks == a.blocks[e.physical := b.blocks[e.physical]] && b.blocks[e.physical].inUse
    requires b.blocks[e.physical].refs == 0
    ensures freeEntries[0] < |c.entries| == |c.entryLinks|
    ensures var d := WithEntry(c, freeEntries[0], e);
      && Good(d, b, freeEntries[1..], freeBindings)
      && Abs(d, b.blocks, freeEntries[1..], freeBindings) == Installed(Abs(c, a.blocks, freeEntries, freeBindings), e)
  {
    var v := Abs(c, a.blocks, freeEntries, freeBindings);
    OpenGood(c, a, freeEntries, freeBindings);
    InstalledIsCoherent(v, e);
    FreeListsAreClean(v);
    PopThread(c.entryLinks, c.entryHead, freeEntries, 0);
    HoldsAfterUpdate(a.blocks, e.physical, b.blocks[e.physical]);
    var d := WithEntry(c, freeEntries[0], e);
    assert Abs(d, b.blocks, freeEntries[1..], freeBindings) == Installed(v, e);
    OpenGood(d, b, freeEntries[1..], freeBindings);
  }

  lemma ReplacementIsGood(c: Core, a: Arena, b: Arena, freeEntries: seq<nat>, freeBindings: seq<nat>, i: nat, e: Entry)
    requires Good(c, a, freeEntries, freeBindings) && i < |c.entries| && Evictable(c.entries[i])
    requires e.valid && e.refs == 0 && e.physical == c.entries[i].physical && e.tick == c.tick + 1
    requires e.lookaheadEpoch == 0
    requires (e.pending ==> e.reservationEpoch <= c.epoch)
    requires ArenaOk(b) && e.physical < |a.blocks| == |b.blocks|
    requires b.blocks == a.blocks[e.physical := b.blocks[e.physical]] && b.blocks[e.physical].inUse
    requires b.blocks[e.physical].refs == 0
    requires a.blocks[e.physical].inUse && a.blocks[e.physical].refs == 0
    ensures var d := c.(entries := c.entries[i := e], tick := e.tick);
      && Good(d, b, freeEntries, freeBindings)
      && Abs(d, b.blocks, freeEntries, freeBindings) == Replaced(Abs(c, a.blocks, freeEntries, freeBindings), i, e)
  {
    var v, d := Abs(c, a.blocks, freeEntries, freeBindings), c.(entries := c.entries[i := e], tick := e.tick);
    OpenGood(c, a, freeEntries, freeBindings);
    ReplacedIsCoherent(v, i, e);
    HoldsAfterUpdate(a.blocks, e.physical, b.blocks[e.physical]);
    assert Abs(d, b.blocks, freeEntries, freeBindings) == Replaced(v, i, e);
    OpenGood(d, b, freeEntries, freeBindings);
  }

  /** Changing flags, ticks and residency, or letting time pass, keeps order. */
  lemma SameHoldingsAreGood(c: Core, a: Arena, d: Core, b: Arena, freeEntries: seq<nat>, freeBindings: seq<nat>)
    requires Good(c, a, freeEntries, freeBindings) && ArenaOk(b) && (Clocked(c) ==> Clocked(d))
    requires d.entryLinks == c.entryLinks && d.entryHead == c.entryHead && d.bindingLinks == c.bindingLinks
    requires d.bindingHead == c.bindingHead
    requires SameHoldings(Abs(c, a.blocks, freeEntries, freeBindings), Abs(d, b.blocks, freeEntries, freeBindings))
    ensures Good(d, b, freeEntries, freeBindings)
  {
    OpenGood(c, a, freeEntries, freeBindings);
    SameHoldingsAreCoherent(Abs(c, a.blocks, freeEntries, freeBindings), Abs(d, b.blocks, freeEntries, freeBindings));
    OpenGood(d, b, freeEntries, freeBindings);
  }

  /** Links that thread all `n` slots in order. */
  method Chain(n: nat) returns (links: seq<nat>)
    requires 0 < n < NONE
    ensures |links| == n && Threads(links, 0, seq(n, i => i))
  {
    links := [];
    for i := 0 to n
      invariant |links| == i && forall k :: 0 <= k < i ==> links[k] == if k + 1 < n then k + 1 else NONE
    {
      links := links + [if i + 1 < n then i + 1 else NONE];
    }
    FreshThread(links, n);
  }

  lemma ExtensionIsGood(c: Core, d: Core, a: Arena, freeEntries: seq<nat>, freeBindings: seq<nat>, k: nat,
                        sequence: nat, blockTokens: nat)
    requires Good(c, a, freeEntries, freeBindings) && Sole(Abs(c, a.blocks, freeEntries, freeBindings), k, sequence)
    requires d == c.(entries := d.entries, bindings := d.bindings) && |d.entries| == |c.entries|
    requires |d.bindings| == |c.bindings| && (Clocked(c) ==> Clocked(d))
    requires Abs(d, a.blocks, freeEntries, freeBindings)
             == Extended(Abs(c, a.blocks, freeEntries, freeBindings), k, blockTokens)
    ensures Good(d, a, freeEntries, freeBindings)
  {
    OpenGood(c, a, freeEntries, freeBindings);
    ExtendedIsCoherent(Abs(c, a.blocks, freeEntries, freeBindings), k, sequence, blockTokens);
    OpenGood(d, a, freeEntries, freeBindings);
  }

  class PrefixCache {
    const arena: KvArena
    const blockTokens: nat
    const hasher: Hasher
    const physicalBlocks: nat
    var core: Core
    ghost var freeEntries: seq<nat>
    ghost var freeBindings: seq<nat>

    ghost predicate Valid()
      reads this, arena
    {
      blockTokens > 0 && core.entries != [] && core.bindings != [] && Good(core, arena.a, freeEntries, freeBindings)
    }

    ghost function State(): View
      reads this, arena
    {
      Abs(core, arena.a.blocks, freeEntries, freeBindings)
    }

    /** An empty cache over an arena with no block in use. */
    constructor (arena: KvArena, hasher: Hasher, blockTokens: nat, entryCount: nat, physicalBlocks: nat,
                 bindingCount: nat)
      requires blockTokens > 0 && 0 < entryCount < NONE && 0 < bindingCount < NONE
      requires 0 < physicalBlocks <= |arena.a.blocks|
      requires arena.Valid() && forall p :: 0 <= p < |arena.a.blocks| ==>
        !arena.a.blocks[p].inUse && arena.a.blocks[p].refs == 0
      ensures Valid() && this.arena == arena && this.hasher == hasher
      ensures this.blockTokens == blockTokens && this.physicalBlocks == physicalBlocks && core.epoch == 0
      ensures IsEmpty(State()) && |core.entries| == entryCount && |core.bindings| == bindingCount
    {
      this.arena := arena;
      this.hasher := hasher;
      this.blockTokens := blockTokens;
      this.physicalBlocks := physicalBlocks;
      var entryLinks := Chain(entryCount);
      var bindingLinks := Chain(bindingCount);
      core := Core(seq(entryCount, _ => NO_ENTRY), entryLinks, 0, seq(bindingCount, _ => NO_BINDING), bindingLinks, 0,
                   0, 0, 0);
      freeEntries := seq(entryCount, i => i);
      freeBindings := seq(bindingCount, i => i);
      new;
      EmptyIsCoherent(State());
      OpenGood(core, arena.a, freeEntries, freeBindings);
    }

    /** Build a cache over an unused arena, if the configuration fits it. */
    static method Create(arena: KvArena, arenaBlockTokens: nat, hasher: Hasher, blockTokens: nat, entryCount: nat,
                         physicalBlocks: nat, bindingCount: nat)
      returns (r: Result<PrefixCache, CacheError>)
      requires entryCount < NONE && bindingCount < NONE
      requires arena.Valid() && forall p :: 0 <= p < |arena.a.blocks| ==>
        !arena.a.blocks[p].inUse && arena.a.blocks[p].refs == 0
      ensures r.Ok? <==>
        && 0 < blockTokens <= MAX_BLOCK_TOKENS && entryCount != 0 && physicalBlocks != 0 && bindingCount != 0
        && physicalBlocks <= |arena.a.blocks| && arenaBlockTokens == blockTokens
      ensures r.Ok? ==>
        && fresh(r.value) && r.value.Valid() && r.value.arena == arena && r.value.hasher == hasher
        && r.value.blockTokens == blockTokens && r.value.physicalBlocks == physicalBlocks
        && IsEmpty(r.value.State()) && |r.value.core.entries| == entryCount && |r.value.core.bindings| == bindingCount
        && |r.value.State().blocks| == |arena.a.blocks|
      ensures r.Err? ==> r.error == BadArgument
    {
      if blockTokens == 0 || blockTokens > MAX_BLOCK_TOKENS || entryCount == 0 || physicalBlocks == 0
         || bindingCount == 0 {
        return Err(BadArgument);
      }
      if |arena.a.blocks| < physicalBlocks || arenaBlockTokens != blockTokens {
        return Err(BadArgument);
      }
      var cache := new PrefixCache(arena, hasher, blockTokens, entryCount, physicalBlocks, bindingCount);
      return Ok(cache);
    }

    /** Drop every entry and binding, free every block, and start over. */
    method Reset()
      requires Valid()
      modifies this, arena
      ensures Valid() && core.epoch == 0 && IsEmpty(State())
      ensures |core.entries| == |old(core).entries| && |core.bindings| == |old(core).bindings|
      ensures |State().blocks| == |old(State()).blocks|
    {
      GoodHeads(core, arena.a, freeEntries, freeBindings);
      var n, m := |core.entries|, |core.bindings|;
      var entryLinks := Chain(n);
      var bindingLinks := Chain(m);
      arena.Reset();
      core := Core(seq(n, _ => NO_ENTRY), entryLinks, 0, seq(m, _ => NO_BINDING), bindingLinks, 0, 0, 0, 0);
      freeEntries := seq(n, i => i);
      freeBindings := seq(m, i => i);
      EmptyIsCoherent(State());
      OpenGood(core, arena.a, freeEntries, freeBindings);
    }

    // ---- Searches ------------------------------------------------------------

    /** The binding of a sequence at a token offset. */
    method FindBindingAt(sequence: nat, first: nat) returns (r: Option<nat>)
      ensures r.Some? ==> At(State(), r.value, sequence, first)
      ensures r.None? ==> forall k: nat :: !At(State(), k, sequence, first)
    {
      for k := 0 to |core.bindings|
        invariant forall j :: 0 <= j < k ==> !At(State(), j, sequence, first)
      {
        var b := core.bindings[k];
        if b.valid && b.sequence == sequence && b.first == first {
          return Some(k);
        }
      }
      return None;
    }

    /** The binding of a sequence to an entry. */
    method FindBinding(sequence: nat, entry: nat) returns (r: Option<nat>)
      ensures r.Some? ==>
        && r.value < |core.bindings| && core.bindings[r.value].valid
        && core.bindings[r.value].sequence == sequence && core.bindings[r.value].entry == entry
      ensures r.None? ==> forall k :: 0 <= k < |core.bindings| ==>
        !(core.bindings[k].valid && core.bindings[k].sequence == sequence && core.bindings[k].entry == entry)
    {
      for k := 0 to |core.bindings|
        invariant forall j :: 0 <= j < k ==>
          !(core.bindings[j].valid && core.bindings[j].sequence == sequence && core.bindings[j].entry == entry)
      {
        var b := core.bindings[k];
        if b.valid && b.sequence == sequence && b.entry == entry {
          return Some(k);
        }
      }
      return None;
    }

    /** The first reusable entry with the given hashes at an offset. */
    method FindReusable(parentHash: nat, blockHash: nat, contentHash: nat, first: nat) returns (r: Option<nat>)
      ensures r.Some? ==> Offers(State(), r.value, parentHash, blockHash, contentHash, first, blockTokens)
      ensures forall i: nat :: Offers(State(), i, parentHash, blockHash, contentHash, first, blockTokens) ==>
        r.Some? && r.value <= i
    {
      for i := 0 to |core.entries|
        invariant forall j :: 0 <= j < i ==> !Offers(State(), j, parentHash, blockHash, contentHash, first, blockTokens)
      {
        var e := core.entries[i];
        if IsReusable(e, blockTokens) && e.parentHash == parentHash && e.blockHash == blockHash
           && e.contentHash == contentHash && e.first == first {
          return Some(i);
        }
      }
      return None;
    }

    /** An entry that spares a sequence computing a block: its own, or one to share. */
    method FindMatch(sequence: nat, parentHash: nat, blockHash: nat, contentHash: nat, first: nat)
      returns (r: Option<nat>)
      requires Valid()
      ensures r.Some? <==> Available(State(), sequence, parentHash, blockHash, contentHash, first, blockTokens)
      ensures r.Some? ==>
        && r.value < |core.entries|
        && Spells(core.entries[r.value], parentHash, blockHash, contentHash, first, blockTokens)
        && IsMatch(State(), sequence, parentHash, blockHash, contentHash, first, blockTokens, r.value)
    {
      GoodHeads(core, arena.a, freeEntries, freeBindings);
      var own := FindBindingAt(sequence, first);
      if own.Some? {
        UsedBinding(State(), own.value);
        var i := core.bindings[own.value].entry;
        var e := core.entries[i];
        if e.tokens == blockTokens && e.parentHash == parentHash && e.blockHash == blockHash
           && e.contentHash == contentHash {
          return Some(i);
        }
        OwnIsAll(State(), sequence, parentHash, blockHash, contentHash, first, blockTokens, own.value);
      }
      r := FindReusable(parentHash, blockHash, contentHash, first);
    }

    /** Stamp an entry as just used. */
    method Touch(i: nat)
      requires Valid() && i < |core.entries|
      modifies this`core
      ensures Valid() && SameClock(old(core), core) && core.bindings == old(core).bindings
      ensures core.entries[i].tick == core.tick == old(core).tick + 1
      ensures var touched := old(core).entries[i].(tick := core.tick);
        State() == old(State()).(entries := old(core).entries[i := touched])
      ensures Uses(TimesOf(old(core)), TimesOf(core), {i})
    {
      ghost var c := core;
      GoodHeads(core, arena.a, freeEntries, freeBindings);
      UsesHeld(TimesOf(core), i, core.entries[i].(tick := core.tick + 1));
      core := core.(tick := core.tick + 1, entries := core.entries[i := core.entries[i].(tick := core.tick + 1)]);
      SameHoldingsAreGood(c, arena.a, core, arena.a, freeEntries, freeBindings);
    }

    /**
     * Look for block `b` of a prompt, and stamp the entry found. Answers the hash of the prompt up to the block's end.
     */
    method ProbeBlock(sequence: nat, tokens: seq<nat>, first: nat, parentHash: nat, ghost v: View, ghost b: nat)
      returns (r: Option<nat>, ghost used: nat)
      requires Valid() && Ticked(v, State())
      requires first == EndToken(b, blockTokens) && first + blockTokens <= |tokens|
      requires parentHash == ChainHash(hasher, tokens, blockTokens, b)
      requires MatchesUpTo(v, hasher, sequence, tokens, blockTokens, b)
      modifies this`core
      ensures Valid() && SameClock(old(core), core) && Ticked(v, State())
      ensures r.None? ==> !Matches(v, hasher, sequence, tokens, blockTokens, b) && core == old(core)
      ensures r.Some? ==> MatchesUpTo(v, hasher, sequence, tokens, blockTokens, b + 1)
      ensures r.Some? ==> r.value == ChainHash(hasher, tokens, blockTokens, b + 1)
      ensures r.Some? ==>
        && MatchedBy(v, hasher, sequence, tokens, blockTokens, b, used)
        && Uses(TimesOf(old(core)), TimesOf(core), {used}) && !TakenOver(TimesOf(old(core)), TimesOf(core), used)
    {
      ghost var m := State();
      used := 0;
      var block := tokens[first..first + blockTokens];
      var blockHash := hasher.block(block, parentHash);
      var found := FindMatch(sequence, parentHash, blockHash, hasher.content(block), first);
      MatchesAnytime(v, m, hasher, sequence, tokens, blockTokens, b);
      if found.None? {
        return None, used;
      }
      used := found.value;
      MatchIsSame(v, m, sequence, parentHash, blockHash, hasher.content(block), first, blockTokens, used);
      Touch(found.value);
      TickOneMore(v, m, State(), found.value);
      return Some(blockHash), used;
    }

    /** Match the blocks below `reusable` one after the other. */
    method ProbeBlocks(sequence: nat, tokens: seq<nat>, reusable: nat, ghost last: nat)
      returns (first: nat, matched: nat, ghost found: seq<nat>)
      requires Valid() && reusable == EndToken(last, blockTokens) <= |tokens|
      modifies this`core
      ensures Valid() && SameClock(old(core), core) && Ticked(old(State()), State())
      ensures first == EndToken(matched, blockTokens) <= reusable
      ensures MatchesUpTo(old(State()), hasher, sequence, tokens, blockTokens, matched)
      ensures first < reusable ==> !Matches(old(State()), hasher, sequence, tokens, blockTokens, matched)
      ensures |found| == matched && MatchedUpTo(old(State()), hasher, sequence, tokens, blockTokens, found)
      ensures Uses(TimesOf(old(core)), TimesOf(core), SetOf(found))
    {
      ghost var v, c := State(), core;
      var parentHash := EMPTY_PARENT;
      first, matched, found := 0, 0, [];
      StartsProbing(v, hasher, sequence, tokens, blockTokens, TimesOf(c));
      while first < reusable
        invariant Valid() && SameClock(c, core) && Ticked(v, State())
        invariant first == EndToken(matched, blockTokens) <= reusable
        invariant parentHash == ChainHash(hasher, tokens, blockTokens, matched)
        invariant MatchesUpTo(v, hasher, sequence, tokens, blockTokens, matched)
        invariant |found| == matched
        invariant Probes(v, hasher, sequence, tokens, blockTokens, found, TimesOf(c), TimesOf(core))
        decreases reusable - first
      {
        BlockFits(matched, last, blockTokens);
        ghost var d, used := core, 0;
        var next;
        next, used := ProbeBlock(sequence, tokens, first, parentHash, v, matched);
        if next.None? {
          OpenProbes(v, hasher, sequence, tokens, blockTokens, found, TimesOf(c), TimesOf(core));
          return;
        }
        ProbesOn(v, hasher, sequence, tokens, blockTokens, found, used, TimesOf(c), TimesOf(d), TimesOf(core));
        found := found + [used];
        parentHash := next.value;
        first := first + blockTokens;
        matched := matched + 1;
      }
      OpenProbes(v, hasher, sequence, tokens, blockTokens, found, TimesOf(c), TimesOf(core));
    }

    /**
     * How much of a prompt need not be computed: answers the tokens and blocks matched. Only the clock moves, and
     * exactly the entries in `found` are stamped.
     */
    method ProbePrompt(sequence: nat, tokens: seq<nat>)
      returns (r: Result<(nat, nat), CacheError>, ghost found: seq<nat>)
      requires Valid()
      modifies this`core
      ensures Valid() && SameClock(old(core), core) && Ticked(old(State()), State())
      ensures r.Ok? <==> sequence != 0 && tokens != []
      ensures r.Err? ==> r.error == BadArgument && core == old(core)
      ensures r.Ok? ==> r.value.0 == EndToken(r.value.1, blockTokens) <= ReusableTokens(|tokens|, blockTokens)
      ensures r.Ok? ==> MatchesUpTo(old(State()), hasher, sequence, tokens, blockTokens, r.value.1)
      ensures r.Ok? && r.value.0 < ReusableTokens(|tokens|, blockTokens) ==>
        !Matches(old(State()), hasher, sequence, tokens, blockTokens, r.value.1)
      ensures r.Ok? ==>
        && |found| == r.value.1 && MatchedUpTo(old(State()), hasher, sequence, tokens, blockTokens, found)
        && Uses(TimesOf(old(core)), TimesOf(core), SetOf(found))
    {
      found := [];
      if sequence == 0 || tokens == [] {
        return Err(BadArgument), found;
      }
      ghost var last := ReusableIsWhole(|tokens|, blockTokens);
      var first, matched;
      first, matched, found := ProbeBlocks(sequence, tokens, ReusableTokens(|tokens|, blockTokens), last);
      return Ok((first, matched)), found;
    }

    /** A free entry, or else the evictable entry that goes first. */
    method SelectVictim() returns (r: Option<nat>)
      requires Valid()
      ensures freeEntries != [] ==> r == Some(freeEntries[0])
      ensures freeEntries == [] && r.Some? ==> r.value < |core.entries| && Evictable(core.entries[r.value])
      ensures freeEntries == [] && r.Some? ==>
        forall i :: 0 <= i < |core.entries| && Evictable(core.entries[i]) ==>
          GoesBefore(core.lookaheadEpoch, core.entries[r.value], r.value, core.entries[i], i)
      ensures r.None? ==> freeEntries == [] && forall i :: 0 <= i < |core.entries| ==> !Evictable(core.entries[i])
      ensures r.Some? ==> GoesNext(TimesOf(core), r.value)
    {
      GoodHeads(core, arena.a, freeEntries, freeBindings);
      NextFree(State());
      if core.entryHead != NONE {
        return Some(core.entryHead);
      }
      r := None;
      for i := 0 to |core.entries|
        invariant r.Some? ==> r.value < i && Evictable(core.entries[r.value])
        invariant r.Some? ==> forall j :: 0 <= j < i && Evictable(core.entries[j]) ==>
          GoesBefore(core.lookaheadEpoch, core.entries[r.value], r.value, core.entries[j], j)
        invariant r.None? ==> forall j :: 0 <= j < i ==> !Evictable(core.entries[j])
      {
        if Evictable(core.entries[i])
           && (r.None? || !GoesBefore(core.lookaheadEpoch, core.entries[r.value], r.value, core.entries[i], i)) {
          r := Some(i);
        }
      }
    }

    // ---- Entries -------------------------------------------------------------

    /** Give an unreferenced entry's block back. A slot not in use is left alone. */
    method InvalidateEntry(i: nat) returns (r: Result<(), CacheError>)
      requires Valid()
      modifies this, arena
      ensures Valid() && SameClock(old(core), core)
      ensures r.Ok? <==> i < |old(core).entries| && (old(core).entries[i].valid ==> old(core).entries[i].refs == 0)
      ensures r.Ok? && old(core).entries[i].valid ==>
        old(core).entries[i].physical < |old(State()).blocks| && State() == Invalidated(old(State()), i)
      ensures r.Err? || !old(core).entries[i].valid ==> State() == old(State())
    {
      if i >= |core.entries| {
        return Err(BadArgument);
      }
      if !core.entries[i].valid {
        return Ok(());
      }
      if core.entries[i].refs != 0 {
        return Err(EntryBusy);
      }
      ghost var a := arena.a;
      GoodHeads(core, a, freeEntries, freeBindings);
      EntryIsOwner(core, a, freeEntries, freeBindings, i);
      var freed := arena.FreeBlock(core.entries[i].physical);
      assert freed.Ok?;
      InvalidationIsGood(core, a, arena.a, freeEntries, freeBindings, i);
      core := WithoutEntry(core, i);
      freeEntries := [i] + freeEntries;
      return Ok(());
    }

    /** Put a new pending entry in the slot `SelectVictim` chose, on a new block or on the evicted entry's. */
    method InstallEntry(i: nat, liveOnly: bool, parentHash: nat, blockHash: nat, contentHash: nat, first: nat,
                        tokens: nat, epoch: nat)
      returns (r: Result<(), CacheError>)
      requires Valid() && i < |core.entries|
      requires (if freeEntries != [] then i == freeEntries[0] else Evictable(core.entries[i]))
      requires epoch <= core.epoch
      modifies this, arena
      ensures Valid() && SameClock(old(core), core)
      ensures r.Ok? ==>
        && core.entries[i]
           == NewEntry(liveOnly, tokens, first, core.entries[i].physical, parentHash, blockHash, contentHash,
                       core.tick, epoch)
        && Installs(old(State()), State(), i, core.entries[i])
      ensures r.Err? <==> !old(core).entries[i].valid && ArenaFull(old(State()))
      ensures r.Err? ==> r.error == Full && State() == old(State())
      ensures core.tick == old(core).tick + if r.Ok? then 1 else 0
    {
      GoodHeads(core, arena.a, freeEntries, freeBindings);
      NextFree(State());
      ghost var a := arena.a;
      if core.entries[i].valid {
        var p := core.entries[i].physical;
        var e := NewEntry(liveOnly, tokens, first, p, parentHash, blockHash, contentHash, core.tick + 1, epoch);
        EntryIsOwner(core, a, freeEntries, freeBindings, i);
        var recycled := arena.RecycleBlock(p);
        assert recycled.Ok?;
        ReplacementIsGood(core, a, arena.a, freeEntries, freeBindings, i, e);
        core := core.(entries := core.entries[i := e], tick := core.tick + 1);
        return Ok(());
      }
      assert core.entryHead == i;
      var acquired := arena.AcquireBlock();
      if acquired.Err? {
        return Err(Full);
      }
      var e := NewEntry(liveOnly, tokens, first, acquired.value, parentHash, blockHash, contentHash, core.tick + 1,
                        epoch);
      InstallationIsGood(core, a, arena.a, freeEntries, freeBindings, e);
      core := WithEntry(core, i, e);
      freeEntries := freeEntries[1..];
      return Ok(());
    }

    // ---- Bindings ------------------------------------------------------------

    /** Give a binding's reference up. A slot not in use is left alone. */
    method ReleaseBinding(k: nat) returns (r: Result<(), CacheError>)
      requires Valid() && k < |core.bindings|
      modifies this, arena
      ensures Valid() && r.Ok? && SameClock(old(core), core)
      ensures !old(core).bindings[k].valid ==> State() == old(State())
      ensures old(core).bindings[k].valid ==> Releasable(old(State()), k) && State() == Unbound(old(State()), k)
    {
      if !core.bindings[k].valid {
        return Ok(());
      }
      ghost var a := arena.a;
      GoodHeads(core, a, freeEntries, freeBindings);
      BindingIsReleasable(core, a, freeEntries, freeBindings, k);
      var released := arena.ReleaseBlockReference(core.bindings[k].physical);
      assert released.Ok?;
      UnbindingIsGood(core, a, arena.a, freeEntries, freeBindings, k);
      core := WithoutBinding(core, k);
      freeBindings := [k] + freeBindings;
      return Ok(());
    }

    /** Bind a sequence to an entry it is not bound to. */
    method AddBinding(sequence: nat, i: nat, epoch: nat, pending: bool) returns (r: Result<(), CacheError>)
      requires Valid() && i < |core.entries| && core.entries[i].valid && epoch <= core.epoch
      requires forall k: nat :: !At(State(), k, sequence, core.entries[i].first)
      requires core.entries[i].pending ==> epoch == core.entries[i].reservationEpoch
      requires EpochIs(State(), epoch, sequence)
      modifies this, arena
      ensures Valid() && SameClock(old(core), core)
      ensures r.Err? <==> old(freeBindings) == []
      ensures r.Err? ==> r.error == Full && State() == old(State())
      ensures r.Ok? ==> Binds(old(State()), State(), sequence, i, epoch, pending)
      ensures core.tick == old(core).tick
    {
      ghost var a := arena.a;
      GoodHeads(core, a, freeEntries, freeBindings);
      NextFree(State());
      if core.bindingHead == NONE {
        return Err(Full);
      }
      EntryIsOwner(core, a, freeEntries, freeBindings, i);
      var retained := arena.RetainBlock(core.entries[i].physical);
      assert retained.Ok?;
      BindingIsGood(core, a, arena.a, freeEntries, freeBindings, i, sequence, epoch, pending);
      core := WithBinding(core, core.bindingHead, i, sequence, epoch, pending);
      freeBindings := freeBindings[1..];
      return Ok(());
    }

    /** Mark a binding pending, if asked. */
    method MarkBinding(k: nat, pending: bool)
      requires Valid() && k < |core.bindings|
      modifies this`core
      ensures Valid()
      ensures var b := old(core).bindings[k];
        core == old(core).(bindings := old(core).bindings[k := b.(pending := b.pending || pending)])
    {
      ghost var c := core;
      GoodHeads(core, arena.a, freeEntries, freeBindings);
      if pending {
        core := core.(bindings := core.bindings[k := core.bindings[k].(pending := true)]);
      }
      SameHoldingsAreGood(c, arena.a, core, arena.a, freeEntries, freeBindings);
    }

    /** Bind a sequence to an entry, unless it is bound to it already. */
    method AcquireEntry(sequence: nat, i: nat, epoch: nat, pending: bool) returns (r: Result<(), CacheError>)
      requires Valid() && i < |core.entries| && core.entries[i].valid && epoch <= core.epoch
      requires MayBind(State(), sequence, i, epoch)
      modifies this, arena
      ensures Valid() && SameClock(old(core), core)
      ensures r.Err? <==> old(freeBindings) == [] && forall k: nat :: !Names(old(State()), k, sequence, i)
      ensures r.Err? ==> r.error == Full && State() == old(State())
      ensures r.Ok? ==> Acquires(old(State()), State(), sequence, i, epoch, pending)
      ensures core.tick == old(core).tick
    {
      var found := FindBinding(sequence, i);
      if found.Some? {
        assert Names(State(), found.value, sequence, i);
        MarkBinding(found.value, pending);
        return Ok(());
      }
      NotAtOffset(State(), sequence, i, epoch);
      forall k: nat ensures !Names(State(), k, sequence, i) {
      }
      r := AddBinding(sequence, i, epoch, pending);
    }

    // ---- Reserving -----------------------------------------------------------

    /** A new entry for an offset the sequence has nothing at. */
    method NewEntryFor(sequence: nat, first: nat, tokens: nat, liveOnly: bool, parentHash: nat, blockHash: nat,
                       contentHash: nat, epoch: nat, ghost v: View, ghost room: nat)
      returns (r: Result<nat, CacheError>)
      requires Valid() && Coherent(v) && Kept(v, State(), sequence, epoch) && EpochIs(State(), epoch, sequence)
      requires epoch == core.epoch
      requires forall k: nat :: !At(State(), k, sequence, first)
      modifies this, arena
      ensures Valid() && SameClock(old(core), core) && Kept(v, State(), sequence, epoch)
      ensures EpochIs(State(), epoch, sequence)
      ensures Grows(old(State()), State()) && core.bindings == old(core).bindings
      ensures r.Ok? ==> Choosable(State(), sequence, first, r.value, epoch)
      ensures r.Ok? ==> Spells(core.entries[r.value], parentHash, blockHash, contentHash, first, tokens)
      ensures r.Ok? ==>
        core.entries[r.value].pending && core.entries[r.value].liveOnly == liveOnly && !core.entries[r.value].reusable
      ensures r.Ok? ==> OnlyEntry(old(State()), State(), r.value) && core.entries[r.value].reservationEpoch == epoch
      ensures room > 0 ==> (Room(old(State()), room) <==> r.Ok? && Spare(State(), room, r.value))
      ensures r.Err? ==> r.error == Full
      ensures Uses(TimesOf(old(core)), TimesOf(core), if r.Ok? then {r.value} else {})
    {
      ghost var u, c := State(), core;
      UsesNone(TimesOf(core));
      GoodHeads(core, arena.a, freeEntries, freeBindings);
      NothingGrows(u);
      var victim := SelectVictim();
      if victim.None? {
        if room > 0 {
          NoRoom(u, room);
        }
        return Err(Full);
      }
      NextFree(u);
      var installed := InstallEntry(victim.value, liveOnly, parentHash, blockHash, contentHash, first, tokens, epoch);
      if installed.Err? {
        if room > 0 {
          NoRoom(u, room);
        }
        return Err(installed.error);
      }
      if room > 0 {
        InstallRoom(u, State(), victim.value, core.entries[victim.value], room);
      }
      InstallKeeps(v, u, State(), sequence, epoch, victim.value, core.entries[victim.value]);
      UsesTaken(TimesOf(c), victim.value, core.entries[victim.value]);
      InstallsOnly(u, State(), victim.value, core.entries[victim.value]);
      StillNothingAt(u, State(), sequence, first);
      UnboundOffsetIsChoosable(State(), sequence, first, victim.value, epoch);
      return Ok(victim.value);
    }

    /** The entry for a block of a sequence: the one it is bound to, a reusable one, or a new one. */
    method ChooseEntry(sequence: nat, first: nat, tokens: nat, reuse: bool, liveOnly: bool, parentHash: nat,
                       blockHash: nat, contentHash: nat, epoch: nat, ghost cross: bool, ghost v: View, ghost room: nat)
      returns (r: Result<nat, CacheError>, ghost used: set<nat>)
      requires Valid() && Coherent(v) && Kept(v, State(), sequence, epoch) && EpochIs(State(), epoch, sequence)
      requires epoch == core.epoch
      requires reuse ==> cross && tokens == blockTokens
      requires liveOnly == (!cross || tokens != blockTokens)
      modifies this, arena
      ensures Valid() && SameClock(old(core), core) && Kept(v, State(), sequence, epoch)
      ensures Uses(TimesOf(old(core)), TimesOf(core), used)
      ensures used <= if r.Ok? then {r.value} else {}
      ensures EpochIs(State(), epoch, sequence)
      ensures Grows(old(State()), State()) && core.bindings == old(core).bindings
      ensures HoldsAt(old(State()), sequence, first) ==> r.Ok? && State() == old(State())
      ensures reuse && OfferedBy(old(State()), parentHash, blockHash, contentHash, first, blockTokens) ==>
        r.Ok? && State() == old(State())
      ensures !HoldsAt(old(State()), sequence, first) && room > 0 ==>
        && (Room(old(State()), room) ==> r.Ok? && Spare(State(), room, r.value))
        && (!reuse && r.Ok? && Spare(State(), room, r.value) ==> Room(old(State()), room))
      ensures r.Ok? ==> Choosable(State(), sequence, first, r.value, epoch)
      ensures r.Ok? && (forall k: nat :: !At(old(State()), k, sequence, first)) ==>
        Proper(core.entries[r.value], cross, epoch, blockTokens)
      ensures r.Ok? && (forall k: nat :: !At(old(State()), k, sequence, first)) ==>
        Spells(core.entries[r.value], parentHash, blockHash, contentHash, first, tokens)
      ensures r.Err? ==> r.error == Full
    {
      ghost var u := State();
      GoodHeads(core, arena.a, freeEntries, freeBindings);
      NothingGrows(u);
      UsesNone(TimesOf(core));
      used := {};
      var existing := FindBindingAt(sequence, first);
      if existing.Some? {
        assert HoldsAt(u, sequence, first);
        BoundEntryIsChoosable(u, existing.value, sequence, first, epoch);
        return Ok(core.bindings[existing.value].entry), used;
      }
      if reuse {
        var found := FindReusable(parentHash, blockHash, contentHash, first);
        if found.Some? {
          UnboundOffsetIsChoosable(u, sequence, first, found.value, epoch);
          if room > 0 && Room(u, room) {
            FoundRoom(u, found.value, room);
          }
          return Ok(found.value), used;
        }
      }
      r := NewEntryFor(sequence, first, tokens, liveOnly, parentHash, blockHash, contentHash, epoch, v, room);
      used := if r.Ok? then {r.value} else {};
    }

    /** Bind a sequence to an entry and stamp the entry as just used. */
    method BindAndTouch(sequence: nat, i: nat, epoch: nat, ghost v: View, ghost room: nat)
      returns (r: Result<nat, CacheError>)
      requires Valid() && Kept(v, State(), sequence, epoch) && EpochIs(State(), epoch, sequence) && epoch == core.epoch
      requires i < |core.entries| && Choosable(State(), sequence, core.entries[i].first, i, epoch)
      modifies this, arena
      ensures Valid() && SameClock(old(core), core) && Kept(v, State(), sequence, epoch)
      ensures EpochIs(State(), epoch, sequence)
      ensures Grows(old(State()), State()) && OnlyAt(old(State()), State(), sequence, old(core).entries[i].first)
      ensures BindsOnly(old(State()), State(), sequence, i) && HeldEntry(old(core).entries[i], core.entries[i])
      ensures Untaken(old(State()), State())
      ensures (exists k: nat :: Names(old(State()), k, sequence, i)) ==>
        r.Ok? && (Room(old(State()), room) <==> Room(State(), room))
      ensures (forall k: nat :: !Names(old(State()), k, sequence, i)) && room > 0 ==>
        (Spare(old(State()), room, i) <==> r.Ok? && Room(State(), room - 1))
      ensures r.Ok? ==> r.value == old(core).entries[i].physical && HasEntry(State(), sequence, i, old(core).entries[i])
      ensures r.Err? ==> r.error == Full
      ensures Uses(TimesOf(old(core)), TimesOf(core), if r.Ok? then {i} else {})
    {
      ghost var u, c := State(), core;
      UsesNone(TimesOf(core));
      GoodHeads(core, arena.a, freeEntries, freeBindings);
      NothingGrows(u);
      NothingGained(u, u, sequence, core.entries[i].first);
      var pending := core.entries[i].pending;
      var acquired := AcquireEntry(sequence, i, epoch, pending);
      if acquired.Err? {
        NoSpare(u, i, room);
        assert State() == u;
        return Err(acquired.error);
      }
      ghost var m := State();
      AcquireKeeps(v, u, m, sequence, epoch, i, pending);
      Touch(i);
      AcquireUses(u, m, sequence, epoch, i, pending, TimesOf(c), TimesOf(core));
      BindingTakesNone(u, m, State(), sequence, epoch, i, pending);
      BindRoom(u, m, State(), sequence, i, epoch, pending, room);
      TouchKeeps(v, u, m, State(), sequence, epoch, i);
      return Ok(core.entries[i].physical);
    }

    /** Reserve one block for a sequence; answers the arena block it lies in. */
    method ReserveBlock(sequence: nat, first: nat, tokens: nat, reuse: bool, liveOnly: bool, parentHash: nat,
                        blockHash: nat, contentHash: nat, epoch: nat, ghost cross: bool, ghost v: View, ghost room: nat)
      returns (r: Result<nat, CacheError>)
      requires Valid() && Coherent(v) && Kept(v, State(), sequence, epoch) && EpochIs(State(), epoch, sequence)
      requires epoch == core.epoch
      requires reuse ==> cross && tokens == blockTokens
      requires liveOnly == (!cross || tokens != blockTokens)
      modifies this, arena
      ensures Valid() && SameClock(old(core), core) && Kept(v, State(), sequence, epoch)
      ensures EpochIs(State(), epoch, sequence)
      ensures Grows(old(State()), State()) && OnlyAt(old(State()), State(), sequence, first)
      ensures Sourced(old(State()), State(), cross, blockTokens)
      ensures HoldsAt(old(State()), sequence, first) ==> r.Ok? && (Room(old(State()), room) <==> Room(State(), room))
      ensures !HoldsAt(old(State()), sequence, first) && room > 0 ==>
        && (Room(old(State()), room) ==> r.Ok? && Room(State(), room - 1))
        && (!reuse && r.Ok? && Room(State(), room - 1) ==> Room(old(State()), room))
      ensures r.Ok? ==> Has(State(), sequence, first, r.value)
      ensures HoldsAt(old(State()), sequence, first)
              || (reuse && OfferedBy(old(State()), parentHash, blockHash, contentHash, first, blockTokens)) ==>
        Untaken(old(State()), State())
      ensures r.Ok? && (forall k: nat :: !At(old(State()), k, sequence, first)) ==>
        HasSpelled(State(), sequence, parentHash, blockHash, contentHash, first, tokens)
      ensures r.Err? ==> r.error == Full
      ensures r.Ok? ==>
        Uses(TimesOf(old(core)), TimesOf(core), EntriesAt(State(), sequence, first))
    {
      ghost var u, c := State(), core;
      GoodHeads(core, arena.a, freeEntries, freeBindings);
      var chosen;
      ghost var used;
      chosen, used := ChooseEntry(sequence, first, tokens, reuse, liveOnly, parentHash, blockHash, contentHash, epoch,
                                  cross, v, room);
      ghost var m, d := State(), core;
      NothingGained(u, m, sequence, first);
      NothingAdded(u, m, cross, blockTokens);
      if chosen.Err? {
        return Err(chosen.error);
      }
      GoodHeads(core, arena.a, freeEntries, freeBindings);
      NamesIffHeld(u, m, sequence, first, chosen.value, epoch);
      r := BindAndTouch(sequence, chosen.value, epoch, v, room);
      GoodHeads(core, arena.a, freeEntries, freeBindings);
      GrowsChain(u, m, State());
      OnlyAtChain(u, m, State(), sequence, first);
      ReserveIsSourced(u, m, State(), sequence, first, chosen.value, epoch, cross, blockTokens);
      if r.Ok? {
        HasEntryMeans(State(), sequence, chosen.value, m.entries[chosen.value]);
        UsesChosen(TimesOf(c), TimesOf(d), TimesOf(core), State(), sequence, chosen.value, m.entries[chosen.value],
                   used);
      }
    }

    /** Begin an operation of its own epoch. */
    method BeginEpoch(sequence: nat)
      requires Valid()
      modifies this`core
      ensures Valid() && core == old(core).(epoch := old(core).epoch + 1)
      ensures State() == old(State()).(epoch := core.epoch)
      ensures Kept(old(State()), State(), sequence, core.epoch) && EpochIs(State(), core.epoch, sequence)
      ensures Coherent(old(State())) && NonePending(old(State()), core.epoch)
    {
      ghost var v, c := State(), core;
      GoodHeads(core, arena.a, freeEntries, freeBindings);
      core := core.(epoch := core.epoch + 1);
      SameHoldingsAreGood(c, arena.a, core, arena.a, freeEntries, freeBindings);
      StartKeeps(v, sequence);
      EpochIsFresh(v, sequence);
    }

    /** Reserve the block after those of `list`. */
    method ReserveNext(sequence: nat, tokens: seq<nat>, cross: bool, first: nat, parentHash: nat, ghost u: View,
                       ghost v: View, ghost list: seq<nat>, ghost rest: nat, ghost a: Times)
      returns (r: Result<nat, CacheError>)
      requires Valid() && Coherent(v) && Kept(v, State(), sequence, core.epoch)
      requires EpochIs(State(), core.epoch, sequence)
      requires Coherent(u) && Reserving(u, State(), hasher, sequence, tokens, blockTokens, cross, list)
      requires Sourced(u, State(), cross, blockTokens)
      requires first == EndToken(|list|, blockTokens) < |tokens|
      requires parentHash == ChainHash(hasher, tokens, blockTokens, |list|)
      requires Uses(a, TimesOf(core), HeldEntries(State(), sequence, blockTokens, |list|))
      modifies this, arena
      ensures Valid() && SameClock(old(core), core) && Kept(v, State(), sequence, core.epoch)
      ensures r.Ok? ==> Uses(a, TimesOf(core), HeldEntries(State(), sequence, blockTokens, |list| + 1))
      ensures EpochIs(State(), core.epoch, sequence)
      ensures r.Ok? ==> Reserving(u, State(), hasher, sequence, tokens, blockTokens, cross, list + [r.value])
      ensures Sourced(u, State(), cross, blockTokens)
      ensures var room := rest + if HoldsAt(u, sequence, first) then 0 else 1;
        && (Room(old(State()), room) ==> r.Ok? && Room(State(), rest))
        && (!cross && r.Ok? && Room(State(), rest) ==> Room(old(State()), room))
      ensures r.Err? ==> r.error == Full
    {
      ghost var m := State();
      ghost var room := rest + if HoldsAt(u, sequence, first) then 0 else 1;
      GoodHeads(core, arena.a, freeEntries, freeBindings);
      var block := if first + blockTokens <= |tokens| then tokens[first..first + blockTokens] else tokens[first..];
      var full := |block| == blockTokens;
      HeldAtNext(u, m, hasher, sequence, tokens, blockTokens, cross, list);
      assert block == BlockTokens(tokens, blockTokens, |list|);
      if first < ReusableTokens(|tokens|, blockTokens) {
        ghost var last := ReusableIsWhole(|tokens|, blockTokens);
        BlockFits(|list|, last, blockTokens);
      }
      var reuse := cross && full && first < ReusableTokens(|tokens|, blockTokens);
      ghost var b := TimesOf(core);
      r := ReserveBlock(sequence, first, |block|, reuse, !full || !cross, parentHash,
                        hasher.block(block, parentHash), hasher.content(block), core.epoch, cross, v, room);
      GoodHeads(core, arena.a, freeEntries, freeBindings);
      SourcedSteps(u, m, State(), cross, blockTokens);
      if r.Ok? {
        UsesNextBlock(a, m, b, State(), TimesOf(core), sequence, blockTokens, |list|);
        ReservingSteps(u, m, State(), hasher, sequence, tokens, blockTokens, cross, list, r.value);
      }
    }

    /** Reserve the block after those of `list`, of `n`, keeping the tally of the room there is. */
    method ReserveCounted(sequence: nat, tokens: seq<nat>, cross: bool, first: nat, parentHash: nat, ghost u: View,
                          ghost v: View, ghost list: seq<nat>, ghost n: nat, ghost extra: nat, ghost a: Times)
      returns (r: Result<nat, CacheError>)
      requires Valid() && Coherent(v) && Kept(v, State(), sequence, core.epoch)
      requires EpochIs(State(), core.epoch, sequence)
      requires Coherent(u) && Reserving(u, State(), hasher, sequence, tokens, blockTokens, cross, list)
      requires Sourced(u, State(), cross, blockTokens)
      requires first == EndToken(|list|, blockTokens) < |tokens|
      requires parentHash == ChainHash(hasher, tokens, blockTokens, |list|)
      requires |list| < n && Tally(u, State(), sequence, blockTokens, |list|, n, cross, extra)
      requires Uses(a, TimesOf(core), HeldEntries(State(), sequence, blockTokens, |list|))
      modifies this, arena
      ensures Valid() && SameClock(old(core), core) && Kept(v, State(), sequence, core.epoch)
      ensures r.Ok? ==> Uses(a, TimesOf(core), HeldEntries(State(), sequence, blockTokens, |list| + 1))
      ensures EpochIs(State(), core.epoch, sequence)
      ensures r.Ok? ==> Reserving(u, State(), hasher, sequence, tokens, blockTokens, cross, list + [r.value])
      ensures Sourced(u, State(), cross, blockTokens)
      ensures r.Ok? ==> Tally(u, State(), sequence, blockTokens, |list| + 1, n, cross, extra)
      ensures r.Err? ==> r.error == Full && !Room(u, Unheld(u, sequence, blockTokens, 0, n) + extra)
    {
      ghost var m, rest := State(), Unheld(u, sequence, blockTokens, |list| + 1, n) + extra;
      r := ReserveNext(sequence, tokens, cross, first, parentHash, u, v, list, rest, a);
      TallySteps(u, m, State(), sequence, blockTokens, |list|, n, cross, extra, rest, r.Ok?);
    }

    /** Reserve the blocks of a prompt one after the other. */
    method ReserveEach(sequence: nat, tokens: seq<nat>, cross: bool, n: nat, ghost u: View, ghost v: View,
                       ghost extra: nat)
      returns (r: Result<seq<nat>, CacheError>)
      requires Valid() && Coherent(v) && Kept(v, State(), sequence, core.epoch)
      requires EpochIs(State(), core.epoch, sequence) && n == BlockCount(|tokens|, blockTokens)
      requires Coherent(u) && Reserving(u, State(), hasher, sequence, tokens, blockTokens, cross, [])
      requires Sourced(u, State(), cross, blockTokens) && Tally(u, State(), sequence, blockTokens, 0, n, cross, extra)
      modifies this, arena
      ensures Valid() && SameClock(old(core), core) && Kept(v, State(), sequence, core.epoch)
      ensures EpochIs(State(), core.epoch, sequence) && Sourced(u, State(), cross, blockTokens)
      ensures r.Ok? ==> |r.value| == n && Reserving(u, State(), hasher, sequence, tokens, blockTokens, cross, r.value)
      ensures r.Ok? ==> Tally(u, State(), sequence, blockTokens, n, n, cross, extra)
      ensures r.Ok? ==> Uses(TimesOf(old(core)), TimesOf(core), HeldEntries(State(), sequence, blockTokens, n))
      ensures r.Err? ==> r.error == Full && !Room(u, Unheld(u, sequence, blockTokens, 0, n) + extra)
    {
      GoodHeads(core, arena.a, freeEntries, freeBindings);
      var parentHash, first := EMPTY_PARENT, 0;
      var list: seq<nat> := [];
      UsesNone(TimesOf(core));
      for b := 0 to n
        invariant Valid() && SameClock(old(core), core) && Kept(v, State(), sequence, core.epoch)
        invariant EpochIs(State(), core.epoch, sequence)
        invariant first == EndToken(b, blockTokens) && parentHash == ChainHash(hasher, tokens, blockTokens, b)
        invariant |list| == b && Reserving(u, State(), hasher, sequence, tokens, blockTokens, cross, list)
        invariant Sourced(u, State(), cross, blockTokens)
        invariant Tally(u, State(), sequence, blockTokens, b, n, cross, extra)
        invariant Uses(TimesOf(old(core)), TimesOf(core), HeldEntries(State(), sequence, blockTokens, b))
      {
        assert first < |tokens| by {
          BlockIsInside(|tokens|, blockTokens, b);
        }
        var reserved := ReserveCounted(sequence, tokens, cross, first, parentHash, u, v, list, n, extra,
                                       TimesOf(old(core)));
        if reserved.Err? {
          return Err(reserved.error);
        }
        parentHash := hasher.block(BlockTokens(tokens, blockTokens, b), parentHash);
        list := list + [reserved.value];
        first := first + blockTokens;
        assert first == EndToken(b + 1, blockTokens) && parentHash == ChainHash(hasher, tokens, blockTokens, b + 1);
      }
      return Ok(list);
    }

    /** Reserve every block of a prompt, in order. */
    method ReserveBlocks(sequence: nat, tokens: seq<nat>, cross: bool, ghost v: View, ghost extra: nat)
      returns (r: Result<seq<nat>, CacheError>)
      requires Valid() && Coherent(v) && Kept(v, State(), sequence, core.epoch)
      requires EpochIs(State(), core.epoch, sequence) && tokens != []
      modifies this, arena
      ensures Valid() && SameClock(old(core), core) && Kept(v, State(), sequence, core.epoch)
      ensures EpochIs(State(), core.epoch, sequence)
      ensures r.Ok? ==> |r.value| == BlockCount(|tokens|, blockTokens)
      ensures r.Ok? ==> Reserving(old(State()), State(), hasher, sequence, tokens, blockTokens, cross, r.value)
      ensures Sourced(old(State()), State(), cross, blockTokens)
      ensures var needed := Unheld(old(State()), sequence, blockTokens, 0, BlockCount(|tokens|, blockTokens));
        && (Room(old(State()), needed + extra) ==> r.Ok? && Room(State(), extra))
        && (!cross && extra == 0 && r.Ok? ==> Room(old(State()), needed))
      ensures r.Err? ==> r.error == Full
      ensures r.Ok? ==>
        Uses(TimesOf(old(core)), TimesOf(core), HeldEntries(State(), sequence, blockTokens, |r.value|))
    {
      ghost var u := State();
      var n := BlockCount(|tokens|, blockTokens);
      GoodHeads(core, arena.a, freeEntries, freeBindings);
      TallyStarts(u, sequence, blockTokens, n, cross, extra);
      ReservingStarts(u, hasher, sequence, tokens, blockTokens, cross);
      NothingAdded(u, u, cross, blockTokens);
      r := ReserveEach(sequence, tokens, cross, n, u, v, extra);
      if r.Ok? {
        TallyEnds(u, State(), sequence, blockTokens, n, cross, extra);
      }
    }

    // ---- Taking an operation back --------------------------------------------

    /** Release every binding a sequence acquired at an epoch. */
    method ReleaseEpoch(sequence: nat, epoch: nat)
      requires Valid()
      modifies this, arena
      ensures Valid() && Releasing(old(State()), State(), sequence, epoch, |core.bindings|)
      ensures SameClock(old(core), core)
    {
      ghost var u := State();
      for k := 0 to |core.bindings|
        invariant Valid() && Releasing(u, State(), sequence, epoch, k) && SameClock(old(core), core)
      {
        ghost var m := State();
        var b := core.bindings[k];
        if b.valid && b.sequence == sequence && b.epoch == epoch {
          var released := ReleaseBinding(k);
        }
        ReleaseOneMore(u, m, State(), sequence, epoch, k);
      }
    }

    /** Give up the unreferenced pending entries of an epoch. */
    method ClearEpoch(epoch: nat)
      requires Valid()
      modifies this, arena
      ensures Valid() && Clearing(old(State()), State(), epoch, |core.entries|) && SameClock(old(core), core)
    {
      ghost var u := State();
      for i := 0 to |core.entries|
        invariant Valid() && Clearing(u, State(), epoch, i) && SameClock(old(core), core)
      {
        ghost var m := State();
        var e := core.entries[i];
        if e.valid && e.pending && e.reservationEpoch == epoch && e.refs == 0 {
          var cleared := InvalidateEntry(i);
        }
        ClearOneMore(u, m, State(), epoch, i);
      }
    }

    /** Take back what a sequence did at an epoch. This never fails. */
    method RollbackEpoch(sequence: nat, epoch: nat)
      requires Valid()
      modifies this, arena
      ensures Valid() && SameClock(old(core), core) && Withdrawn(old(State()), State(), sequence, epoch)
      ensures EpochIs(old(State()), epoch, sequence) ==> RolledBack(old(State()), State(), sequence, epoch)
    {
      ReleaseEpoch(sequence, epoch);
      ghost var m := State();
      GoodHeads(core, arena.a, freeEntries, freeBindings);
      ClearEpoch(epoch);
      RollbackWithdraws(old(State()), m, State(), sequence, epoch);
      if EpochIs(old(State()), epoch, sequence) {
        RollbackIsComplete(old(State()), m, State(), sequence, epoch);
      }
    }

    /** Take back a half-done operation. */
    method Abandon(sequence: nat, ghost v: View)
      requires Valid() && Coherent(v) && NonePending(v, core.epoch)
      requires Kept(v, State(), sequence, core.epoch) && EpochIs(State(), core.epoch, sequence)
      modifies this, arena
      ensures Valid() && SameClock(old(core), core) && Restored(v, State(), core.epoch)
    {
      RollbackEpoch(sequence, core.epoch);
      RollbackRestores(v, old(State()), State(), sequence, core.epoch);
    }

    // ---- Transactions --------------------------------------------------------

    /**
     * Reserve every block of a prompt, or nothing. Blocks of other sequences are shared only if `cross` allows.
     * `extra` is room the caller asks about beyond what the prompt needs.
     */
    method ReservePrompt(sequence: nat, tokens: seq<nat>, cross: bool, ghost extra: nat)
      returns (r: Result<seq<nat>, CacheError>)
      requires Valid()
      modifies this, arena
      ensures Valid()
      ensures sequence == 0 || tokens == [] ==> r == Err(BadArgument) && State() == old(State())
      ensures sequence != 0 && tokens != [] ==> core.epoch == old(core).epoch + 1
      ensures r.Ok? ==> Kept(old(State()), State(), sequence, core.epoch) && EpochIs(State(), core.epoch, sequence)
      ensures r.Ok? ==>
        && |r.value| == BlockCount(|tokens|, blockTokens)
        && Reserving(old(State()).(epoch := core.epoch), State(), hasher, sequence, tokens, blockTokens, cross, r.value)
        && Sourced(old(State()).(epoch := core.epoch), State(), cross, blockTokens)
      ensures r.Err? && sequence != 0 && tokens != [] ==> r.error == Full && Restored(old(State()), State(), core.epoch)
      ensures sequence != 0 && tokens != [] ==>
        var needed := Unheld(old(State()), sequence, blockTokens, 0, BlockCount(|tokens|, blockTokens));
        && (Room(old(State()), needed + extra) ==> r.Ok? && Room(State(), extra))
        && (!cross && extra == 0 && r.Ok? ==> Room(old(State()), needed))
      ensures r.Ok? ==>
        Uses(TimesOf(old(core)), TimesOf(core), HeldEntries(State(), sequence, blockTokens, |r.value|))
    {
      if sequence == 0 || tokens == [] {
        return Err(BadArgument);
      }
      ghost var v := State();
      BeginEpoch(sequence);
      UnheldSame(v, State(), sequence, blockTokens, 0, BlockCount(|tokens|, blockTokens));
      SameRoom(v, State(), Unheld(v, sequence, blockTokens, 0, BlockCount(|tokens|, blockTokens)) + extra);
      r := ReserveBlocks(sequence, tokens, cross, v, extra);
      if r.Err? {
        Abandon(sequence, v);
      }
    }

    /** Commit one pending entry: its block becomes resident, and a full block that may be shared becomes reusable. */
    method CommitEntry(i: nat, epoch: nat)
      requires Valid() && i < |core.entries| && IsPendingOf(core.entries[i], epoch)
      modifies this`core, arena
      ensures Valid() && SameClock(old(core), core)
      ensures var committed := CommittedEntry(old(core).entries[i], epoch, blockTokens);
        State() == old(State()).(entries := old(core).entries[i := committed])
      ensures core.entries[i].physical < |arena.a.blocks| && arena.a.blocks[core.entries[i].physical].resident
    {
      ghost var c, a := core, arena.a;
      GoodHeads(core, a, freeEntries, freeBindings);
      EntryIsOwner(core, a, freeEntries, freeBindings, i);
      var marked := arena.MarkBlockResident(core.entries[i].physical);
      assert marked.Ok?;
      SameHolds(a.blocks, arena.a.blocks);
      core := core.(entries := core.entries[i := CommittedEntry(core.entries[i], epoch, blockTokens)]);
      SameHoldingsAreGood(c, a, core, arena.a, freeEntries, freeBindings);
    }

    /** Commit every pending entry of an epoch. */
    method CommitEntries(epoch: nat)
      requires Valid()
      modifies this`core, arena
      ensures Valid() && SameClock(old(core), core)
      ensures Committing(old(State()), State(), epoch, blockTokens, |core.entries|)
    {
      ghost var u := State();
      for i := 0 to |core.entries|
        invariant Valid() && SameClock(old(core), core) && Committing(u, State(), epoch, blockTokens, i)
      {
        ghost var m := State();
        var e := core.entries[i];
        if e.valid && e.pending && e.reservationEpoch == epoch {
          CommitEntry(i, epoch);
        }
        CommitOneMore(u, m, State(), epoch, blockTokens, i);
      }
    }

    /** A sequence's bindings of an epoch are no longer pending. */
    method SettleBindings(sequence: nat, epoch: nat)
      requires Valid()
      modifies this`core
      ensures Valid() && SameClock(old(core), core) && Settling(old(State()), State(), sequence, epoch, |core.bindings|)
    {
      ghost var u, c := State(), core;
      for k := 0 to |core.bindings|
        invariant Valid() && SameClock(old(core), core) && Settling(u, State(), sequence, epoch, k)
      {
        ghost var m, d := State(), core;
        var b := core.bindings[k];
        GoodHeads(core, arena.a, freeEntries, freeBindings);
        if b.valid && b.sequence == sequence && b.epoch == epoch {
          core := core.(bindings := core.bindings[k := b.(pending := false)]);
        }
        SameHoldingsAreGood(d, arena.a, core, arena.a, freeEntries, freeBindings);
        SettleOneMore(u, m, State(), sequence, epoch, k);
      }
    }

    /** Commit a reservation. It never stops half way. */
    method CommitReservation(sequence: nat, epoch: nat) returns (r: Result<(), CacheError>)
      requires Valid()
      modifies this`core, arena
      ensures Valid() && SameClock(old(core), core)
      ensures r == if sequence == 0 || epoch == 0 then Err(BadArgument) else Ok(())
      ensures r.Err? ==> State() == old(State())
      ensures r.Ok? ==> Committed(old(State()), State(), sequence, epoch, blockTokens)
    {
      if sequence == 0 || epoch == 0 {
        return Err(BadArgument);
      }
      CommitEntries(epoch);
      ghost var m := State();
      SettleBindings(sequence, epoch);
      CommitIsComplete(old(State()), m, State(), sequence, epoch, blockTokens);
      return Ok(());
    }

    /** Cancel a reservation: every binding and every pending entry of its epoch goes. */
    method CancelReservation(sequence: nat, epoch: nat) returns (r: Result<(), CacheError>)
      requires Valid()
      modifies this, arena
      ensures Valid() && SameClock(old(core), core)
      ensures r == if sequence == 0 || epoch == 0 then Err(BadArgument) else Ok(())
      ensures r.Err? ==> State() == old(State())
      ensures r.Ok? ==> Withdrawn(old(State()), State(), sequence, epoch)
      ensures r.Ok? && EpochIs(old(State()), epoch, sequence) ==> RolledBack(old(State()), State(), sequence, epoch)
    {
      if sequence == 0 || epoch == 0 {
        return Err(BadArgument);
      }
      RollbackEpoch(sequence, epoch);
      return Ok(());
    }

    // ---- Releasing a sequence ------------------------------------------------

    /** Release every binding of a sequence. */
    method ReleaseBindings(sequence: nat)
      requires Valid()
      modifies this, arena
      ensures Valid() && Leaving(old(State()), State(), sequence, |core.bindings|) && SameClock(old(core), core)
    {
      ghost var u := State();
      for k := 0 to |core.bindings|
        invariant Valid() && Leaving(u, State(), sequence, k) && SameClock(old(core), core)
      {
        ghost var m := State();
        var b := core.bindings[k];
        if b.valid && b.sequence == sequence {
          var released := ReleaseBinding(k);
        }
        LeaveOneMore(u, m, State(), sequence, k);
      }
    }

    /** Give up every unreferenced entry that is not reusable. */
    method SweepEntries()
      requires Valid()
      modifies this, arena
      ensures Valid() && Sweeping(old(State()), State(), |core.entries|) && SameClock(old(core), core)
    {
      ghost var u := State();
      for i := 0 to |core.entries|
        invariant Valid() && Sweeping(u, State(), i) && SameClock(old(core), core)
      {
        ghost var m := State();
        var e := core.entries[i];
        if e.valid && !e.reusable && e.refs == 0 {
          var swept := InvalidateEntry(i);
        }
        SweepOneMore(u, m, State(), i);
      }
    }

    /** Release all a sequence holds. What stays is referenced by another sequence, or reusable. */
    method ReleaseSequence(sequence: nat) returns (r: Result<(), CacheError>)
      requires Valid()
      modifies this, arena
      ensures Valid() && SameClock(old(core), core)
      ensures r == if sequence == 0 then Err(BadArgument) else Ok(())
      ensures r.Err? ==> State() == old(State())
      ensures r.Ok? ==> Left(old(State()), State(), sequence)
    {
      if sequence == 0 {
        return Err(BadArgument);
      }
      ReleaseBindings(sequence);
      ghost var m := State();
      GoodHeads(core, arena.a, freeEntries, freeBindings);
      SweepEntries();
      LeavingIsComplete(old(State()), m, State(), sequence);
      return Ok(());
    }

    // ---- Sharing a prefix ----------------------------------------------------

    /** The binding of `source` at an offset, if `target` may share its entry. */
    method FindShared(source: nat, target: nat, first: nat, limit: nat, ghost room: nat)
      returns (r: Result<nat, CacheError>)
      requires Valid() && EpochIs(State(), core.epoch, target)
      ensures r.Err? ==> ShareStep(State(), source, target, first, limit, room) == Err(r.error)
      ensures r.Ok? ==>
        && At(State(), r.value, source, first) && core.bindings[r.value].entry < |core.entries|
        && core.entries[core.bindings[r.value].entry].valid && core.entries[core.bindings[r.value].entry].first == first
        && MayBind(State(), target, core.bindings[r.value].entry, core.epoch)
        && var next := first + core.bindings[r.value].tokens;
           first < next <= limit && Leads(State(), source, target, first, limit, room, next)
    {
      ghost var u := State();
      GoodHeads(core, arena.a, freeEntries, freeBindings);
      OpenShareStep(u, source, target, first, limit, room);
      var found := FindBindingAt(source, first);
      if found.None? {
        return Err(Missing);
      }
      var b := core.bindings[found.value];
      UsedBinding(u, found.value);
      var own := FindBindingAt(target, first);
      assert State() == u;
      ShareStepIs(u, source, target, first, found.value, own);
      if b.tokens == 0 || first + b.tokens > limit {
        return Err(Missing);
      }
      if core.entries[b.entry].pending {
        return Err(EntryBusy);
      }
      if own.Some? && core.bindings[own.value].entry != b.entry {
        return Err(Conflict);
      }
      SharedEntryMayBind(u, found.value, own, source, target, first, core.epoch);
      return Ok(found.value);
    }

    /** Bind the target to the entry of the source's binding `k`. */
    method TakeShared(source: nat, target: nat, k: nat, first: nat, limit: nat, ghost v: View, ghost offsets: seq<nat>)
      returns (r: Result<(), CacheError>)
      requires Valid() && Coherent(v) && Kept(v, State(), target, core.epoch) && EpochIs(State(), core.epoch, target)
      requires SharedAll(State(), source, target, offsets, first)
      requires At(State(), k, source, first) && core.bindings[k].entry < |core.entries|
      requires core.entries[core.bindings[k].entry].valid && core.entries[core.bindings[k].entry].first == first
      requires MayBind(State(), target, core.bindings[k].entry, core.epoch)
      requires Leads(State(), source, target, first, limit, |freeBindings|, first + core.bindings[k].tokens)
      modifies this, arena
      ensures Valid() && SameClock(old(core), core) && Kept(v, State(), target, core.epoch)
      ensures EpochIs(State(), core.epoch, target)
      ensures var next := first + old(core).bindings[k].tokens;
        && (r.Ok? ==>
              && SharedAll(State(), source, target, offsets + [first], next)
              && OnlyAt(old(State()), State(), target, first))
        && ShareStep(old(State()), source, target, first, limit, |old(freeBindings)|)
           == if r.Ok? then Ok((next, |freeBindings|)) else Err(r.error)
    {
      ghost var u := State();
      GoodHeads(core, arena.a, freeEntries, freeBindings);
      var b := core.bindings[k];
      r := AcquireEntry(target, b.entry, core.epoch, false);
      if r.Err? {
        ShareFails(u, source, target, b.entry, core.epoch, first, limit, first + b.tokens);
        return;
      }
      ShareTakes(u, State(), source, target, b.entry, core.epoch, first, limit, first + b.tokens);
      ShareKeeps(v, u, State(), source, target, core.epoch, offsets, k, first);
    }

    /** Bind `target` to whatever `source` has at an offset. Answers the offset after it. */
    method ShareBlock(source: nat, target: nat, first: nat, limit: nat, ghost v: View, ghost offsets: seq<nat>)
      returns (r: Result<nat, CacheError>)
      requires Valid() && Coherent(v) && Kept(v, State(), target, core.epoch) && EpochIs(State(), core.epoch, target)
      requires SharedAll(State(), source, target, offsets, first)
      modifies this, arena
      ensures Valid() && SameClock(old(core), core) && Kept(v, State(), target, core.epoch)
      ensures EpochIs(State(), core.epoch, target)
      ensures r.Ok? ==> first < r.value <= limit && SharedAll(State(), source, target, offsets + [first], r.value)
      ensures r.Ok? ==> OnlyAt(old(State()), State(), target, first)
      ensures r.Ok? ==>
        ShareStep(old(State()), source, target, first, limit, |old(freeBindings)|) == Ok((r.value, |freeBindings|))
      ensures r.Err? ==> ShareStep(old(State()), source, target, first, limit, |old(freeBindings)|) == Err(r.error)
    {
      var found := FindShared(source, target, first, limit, |freeBindings|);
      if found.Err? {
        return Err(found.error);
      }
      var next := first + core.bindings[found.value].tokens;
      var taken := TakeShared(source, target, found.value, first, limit, v, offsets);
      return match taken case Ok(_) => Ok(next) case Err(e) => Err(e);
    }

    /** Bind one sequence to the committed blocks of another, up to a token count, or to nothing. */
    method BindCommittedPrefix(source: nat, target: nat, tokens: nat)
      returns (r: Result<(), CacheError>, ghost offsets: seq<nat>)
      requires Valid()
      modifies this, arena
      ensures Valid()
      ensures source == 0 || target == 0 || source == target || tokens == 0 ==>
        r == Err(BadArgument) && State() == old(State())
      ensures r.Ok? ==>
        Kept(old(State()), State(), target, core.epoch) && SharedAll(State(), source, target, offsets, tokens)
      ensures r.Err? && r.error != BadArgument ==> Restored(old(State()), State(), core.epoch)
      ensures source != 0 && target != 0 && source != target && tokens != 0 ==>
        r == ShareResult(old(State()), source, target, 0, tokens, |old(freeBindings)|)
    {
      offsets := [];
      if source == 0 || target == 0 || source == target || tokens == 0 {
        return Err(BadArgument), [];
      }
      ghost var v := State();
      BeginEpoch(target);
      NothingGainedAtAll(v, State(), target);
      var first: nat := 0;
      while first < tokens
        invariant Valid() && SameClock(old(core).(epoch := core.epoch), core)
        invariant Kept(v, State(), target, core.epoch) && EpochIs(State(), core.epoch, target)
        invariant NonePending(v, core.epoch)
        invariant SharedAll(State(), source, target, offsets, first) && first <= tokens
        invariant GainedBelow(v, State(), target, first)
        invariant ShareResult(v, source, target, 0, tokens, |v.freeBindings|)
                  == ShareResult(v, source, target, first, tokens, |freeBindings|)
      {
        ghost var u := State();
        GoodHeads(core, arena.a, freeEntries, freeBindings);
        ShareStepSame(v, u, source, target, core.epoch, first, tokens, |freeBindings|);
        var shared := ShareBlock(source, target, first, tokens, v, offsets);
        if shared.Err? {
          Abandon(target, v);
          return Err(shared.error), offsets;
        }
        GainedOneMore(v, u, State(), target, first, shared.value);
        offsets := offsets + [first];
        first := shared.value;
      }
      return Ok(()), offsets;
    }

    // ---- Room for a sequence's tokens ----------------------------------------

    /** Whether a block the sequence holds will do: committed, and large enough or the one block that may grow. */
    method CheckHeld(k: nat, needed: nat, short: Option<nat>) returns (r: Result<Option<nat>, CacheError>)
      requires Valid() && k < |core.bindings| && core.bindings[k].valid
      ensures r.Ok? ==> Settled(State(), k, blockTokens) && (short.Some? ==> r.value == short)
      ensures r.Ok? ==> core.bindings[k].tokens >= needed || r.value == Some(k)
      ensures r.Ok? && r.value != short ==>
        short.None? && r.value == Some(k) && Sole(State(), k, core.bindings[k].sequence)
      ensures r.Ok? <==> Settled(State(), k, blockTokens) && core.bindings[k].physical < physicalBlocks
                         && (core.bindings[k].tokens >= needed || (short.None? && MayGrow(State(), k)))
      ensures r.Ok? && core.bindings[k].tokens >= needed ==> r.value == short
      ensures r.Err? ==> r.error in {BadArgument, EntryBusy, NotValidated}
    {
      GoodHeads(core, arena.a, freeEntries, freeBindings);
      UsedBinding(State(), k);
      var b := core.bindings[k];
      if b.physical >= physicalBlocks || b.tokens == 0 || b.tokens > blockTokens {
        return Err(BadArgument);
      }
      var e := core.entries[b.entry];
      if e.pending {
        return Err(EntryBusy);
      }
      if b.tokens < needed {
        if !e.liveOnly || e.refs != 1 || short.Some? {
          return Err(NotValidated);
        }
        return Ok(Some(k));
      }
      return Ok(short);
    }

    /** A new live-only block for a sequence that has none at an offset. */
    method AddBlock(sequence: nat, first: nat, parentHash: nat, blockHash: nat, contentHash: nat, short: Option<nat>,
                    ghost v: View, ghost room: nat)
      returns (r: Result<(), CacheError>)
      requires Valid() && Coherent(v) && Kept(v, State(), sequence, core.epoch)
      requires EpochIs(State(), core.epoch, sequence)
      requires SoleIfAny(State(), short, sequence) && forall k: nat :: !At(State(), k, sequence, first)
      modifies this, arena
      ensures Valid() && SameClock(old(core), core) && Kept(v, State(), sequence, core.epoch)
      ensures EpochIs(State(), core.epoch, sequence)
      ensures r.Ok? ==>
        && Grows(old(State()), State()) && SoleIfAny(State(), short, sequence)
        && HoldsNew(State(), sequence, first, blockTokens)
      ensures r.Ok? ==> Sourced(old(State()), State(), false, blockTokens)
      ensures r.Ok? ==> HasSpelled(State(), sequence, parentHash, blockHash, contentHash, first, blockTokens)
      ensures r.Ok? ==> HeldSame(old(State()), State()) && OnlyAt(old(State()), State(), sequence, first)
      ensures room > 0 ==> (Room(old(State()), room) <==> r.Ok? && Room(State(), room - 1))
      ensures r.Err? ==> r.error == Full
    {
      ghost var u := State();
      GoodHeads(core, arena.a, freeEntries, freeBindings);
      var chosen := NewEntryFor(sequence, first, blockTokens, true, parentHash, blockHash, contentHash, core.epoch, v,
                                room);
      if chosen.Err? {
        return Err(chosen.error);
      }
      ghost var m := State();
      GoodHeads(core, arena.a, freeEntries, freeBindings);
      assert !HoldsAt(u, sequence, first);
      NamesIffHeld(u, m, sequence, first, chosen.value, core.epoch);
      var acquired := AcquireEntry(sequence, chosen.value, core.epoch, true);
      if acquired.Err? {
        NoSpare(m, chosen.value, room);
        return Err(acquired.error);
      }
      AcquireRoom(m, State(), sequence, chosen.value, core.epoch, true, room);
      GoodHeads(core, arena.a, freeEntries, freeBindings);
      AcquireKeeps(v, m, State(), sequence, core.epoch, chosen.value, true);
      BlockIsAdded(u, m, State(), sequence, chosen.value, core.epoch, short, blockTokens);
      ReserveIsSourced(u, m, State(), sequence, first, chosen.value, core.epoch, false, blockTokens);
      AddingKeepsHeld(u, m, State(), sequence, chosen.value, core.epoch);
      NothingGained(u, m, sequence, first);
      OnlyAtChain(u, m, State(), sequence, first);
      return Ok(());
    }

    /** A block the sequence holds, as block `b`. Answers its hash, and the block that is to grow if there is one. */
    method FitHeld(k: nat, b: nat, needed: nat, short: Option<nat>, ghost v: View, ghost d: Demand)
      returns (r: Result<(nat, Option<nat>), CacheError>)
      requires Valid() && Coherent(v) && d.blockTokens == blockTokens && d.limit == physicalBlocks && b < BlocksOf(d)
      requires At(State(), k, d.sequence, EndToken(b, blockTokens)) && needed == Needed(d.tokens, blockTokens, b)
      requires Fitting(State(), d.sequence, blockTokens, d.tokens, core.epoch, short, b)
      requires Faring(v, State(), d, short, b)
      ensures r.Ok? ==> Fitting(State(), d.sequence, blockTokens, d.tokens, core.epoch, r.value.1, b + 1)
      ensures r.Ok? ==> Faring(v, State(), d, r.value.1, b + 1)
      ensures Ready(State(), d.sequence, blockTokens, d.tokens, b) && r.Ok? ==> r.value.1 == short
      ensures r.Ok? ==> r.value.0 == core.bindings[k].blockHash
      ensures r.Err? ==> !CanMeet(v, d)
    {
      ghost var u := State();
      GoodHeads(core, arena.a, freeEntries, freeBindings);
      OpenFitting(u, d.sequence, blockTokens, d.tokens, core.epoch, short, b);
      if Ready(u, d.sequence, blockTokens, d.tokens, b) {
        FoundIsReady(u, d.sequence, blockTokens, d.tokens, b, k);
      }
      var checked := CheckHeld(k, needed, short);
      if checked.Err? {
        FareFails(v, u, d, short, b, k);
        return Err(checked.error);
      }
      FareHeld(v, u, d, short, b, k);
      HeldFits(u, d.sequence, blockTokens, d.tokens, core.epoch, short, checked.value, b, k);
      return Ok((core.bindings[k].blockHash, checked.value));
    }

    /** Add block `b`, which the sequence does not hold, to its chain of hashes. */
    method FitMissing(sequence: nat, tokens: nat, b: nat, first: nat, parentHash: nat, short: Option<nat>,
                      ghost v: View, ghost d: Demand)
      returns (r: Result<nat, CacheError>)
      requires Valid() && Coherent(v) && Kept(v, State(), sequence, core.epoch)
      requires EpochIs(State(), core.epoch, sequence) && first == EndToken(b, blockTokens) < tokens
      requires Fitting(State(), sequence, blockTokens, tokens, core.epoch, short, b)
      requires Sourced(v, State(), false, blockTokens) && !HoldsAt(State(), sequence, first)
      requires d == Demand(sequence, blockTokens, tokens, physicalBlocks) && Faring(v, State(), d, short, b)
      requires b < BlocksOf(d)
      modifies this, arena
      ensures Valid() && SameClock(old(core), core) && Kept(v, State(), sequence, core.epoch)
      ensures EpochIs(State(), core.epoch, sequence)
      ensures r.Ok? ==>
        && Fitting(State(), sequence, blockTokens, tokens, core.epoch, short, b + 1)
        && Sourced(v, State(), false, blockTokens) && Faring(v, State(), d, short, b + 1)
      ensures r.Err? ==> !CanMeet(v, d)
      ensures r.Ok? ==>
        && r.value == hasher.mix(hasher.mix(parentHash, sequence), first)
        && HasSpelled(State(), sequence, parentHash, r.value, hasher.mix(r.value, core.epoch), first, blockTokens)
        && Continues(State(), sequence, blockTokens, b + 1, r.value)
    {
      ghost var u := State();
      GoodHeads(core, arena.a, freeEntries, freeBindings);
      OpenFitting(u, sequence, blockTokens, tokens, core.epoch, short, b);
      UnheldNext(v, u, d, short, b);
      var blockHash := hasher.mix(hasher.mix(parentHash, sequence), first);
      var added := AddBlock(sequence, first, parentHash, blockHash, hasher.mix(blockHash, core.epoch), short, v,
                            Unheld(v, sequence, blockTokens, b, BlocksOf(d)));
      if added.Err? {
        FareRunsOut(v, u, d, short, b);
        return Err(added.error);
      }
      FareAdded(v, u, State(), d, short, b);
      AddedFits(u, State(), sequence, blockTokens, tokens, core.epoch, short, b);
      SourcedSteps(v, u, State(), false, blockTokens);
      GoodHeads(core, arena.a, freeEntries, freeBindings);
      SpelledIsHashed(State(), sequence, parentHash, blockHash, hasher.mix(blockHash, core.epoch), blockTokens,
                      blockTokens, b);
      return Ok(blockHash);
    }

    /**
     * Make sure the sequence holds block `b`. Answers the block's hash, and the block that is to grow if there is one.
     */
    method FitBlock(sequence: nat, tokens: nat, b: nat, first: nat, parentHash: nat, short: Option<nat>, ghost v: View,
                    ghost d: Demand)
      returns (r: Result<(nat, Option<nat>), CacheError>)
      requires Valid() && Coherent(v) && Kept(v, State(), sequence, core.epoch)
      requires EpochIs(State(), core.epoch, sequence)
      requires first == EndToken(b, blockTokens) < tokens
      requires Fitting(State(), sequence, blockTokens, tokens, core.epoch, short, b)
      requires Sourced(v, State(), false, blockTokens)
      requires d == Demand(sequence, blockTokens, tokens, physicalBlocks) && Faring(v, State(), d, short, b)
      requires b < BlocksOf(d) && Continues(State(), sequence, blockTokens, b, parentHash)
      modifies this, arena
      ensures Valid() && SameClock(old(core), core) && Kept(v, State(), sequence, core.epoch)
      ensures EpochIs(State(), core.epoch, sequence)
      ensures r.Ok? ==>
        && Fitting(State(), sequence, blockTokens, tokens, core.epoch, r.value.1, b + 1)
        && Sourced(v, State(), false, blockTokens)
      ensures Ready(old(State()), sequence, blockTokens, tokens, b) && r.Ok? ==>
        r.value.1 == short && State() == old(State())
      ensures r.Ok? ==> Faring(v, State(), d, r.value.1, b + 1)
      ensures r.Err? ==> !CanMeet(v, d)
      ensures r.Ok? ==> Continues(State(), sequence, blockTokens, b + 1, r.value.0)
      ensures r.Ok? && !HoldsAt(old(State()), sequence, first) ==>
        && r.value.0 == hasher.mix(hasher.mix(parentHash, sequence), first)
        && HasSpelled(State(), sequence, parentHash, r.value.0, hasher.mix(r.value.0, core.epoch), first, blockTokens)
    {
      ghost var u := State();
      var found := FindBindingAt(sequence, first);
      if found.Some? {
        r := FitHeld(found.value, b, if first + blockTokens <= tokens then blockTokens else tokens - first, short, v,
                     d);
        assert At(u, found.value, sequence, first);
        OpenContinues(u, sequence, blockTokens, b + 1, core.bindings[found.value].blockHash);
        return;
      }
      GoodHeads(core, arena.a, freeEntries, freeBindings);
      assert State() == u && !HoldsAt(u, sequence, first);
      var added := FitMissing(sequence, tokens, b, first, parentHash, short, v, d);
      return match added case Ok(hash) => Ok((hash, short)) case Err(e) => Err(e);
    }

    /** Grow the one short block to a whole one. */
    method GrowShort(short: Option<nat>, ghost sequence: nat)
      requires Valid() && SoleIfAny(State(), short, sequence)
      modifies this`core
      ensures Valid() && SameClock(old(core), core) && Grew(old(State()), State(), short, blockTokens)
    {
      if short.None? {
        return;
      }
      ghost var c := core;
      var k := short.value;
      var i := core.bindings[k].entry;
      GoodHeads(core, arena.a, freeEntries, freeBindings);
      core := core.(bindings := core.bindings[k := core.bindings[k].(tokens := blockTokens)],
                    entries := core.entries[i := GrownEntry(core.entries[i], blockTokens)]);
      ExtensionIsGood(c, core, arena.a, freeEntries, freeBindings, k, sequence, blockTokens);
    }

    /** Make sure the sequence holds every block; answers the one that is to grow, if there is one. */
    method FitBlocks(sequence: nat, tokens: nat, ghost v: View) returns (r: Result<Option<nat>, CacheError>)
      requires Valid() && Coherent(v) && Kept(v, State(), sequence, core.epoch)
      requires EpochIs(State(), core.epoch, sequence)
      requires State() == v.(epoch := core.epoch)
      modifies this, arena
      ensures Valid() && SameClock(old(core), core) && Kept(v, State(), sequence, core.epoch)
      ensures EpochIs(State(), core.epoch, sequence)
      ensures r.Ok? ==>
        Fitting(State(), sequence, blockTokens, tokens, core.epoch, r.value, BlockCount(tokens, blockTokens))
      ensures r.Ok? ==> Sourced(v, State(), false, blockTokens)
      ensures r.Ok? && ReadyUpTo(v, sequence, blockTokens, tokens, BlockCount(tokens, blockTokens)) ==>
        r.value == None && State() == v.(epoch := core.epoch)
      ensures r.Ok? <==> CanMeet(v, Demand(sequence, blockTokens, tokens, physicalBlocks))
    {
      var parentHash: nat, first: nat, short: Option<nat> := EMPTY_PARENT, 0, None;
      ghost var ready := ReadyUpTo(v, sequence, blockTokens, tokens, BlockCount(tokens, blockTokens));
      OpenFitting(State(), sequence, blockTokens, tokens, core.epoch, short, 0);
      NothingAdded(v, State(), false, blockTokens);
      ghost var d := Demand(sequence, blockTokens, tokens, physicalBlocks);
      FareStarts(v, core.epoch, d);
      OpenContinues(State(), sequence, blockTokens, 0, parentHash);
      for b := 0 to BlockCount(tokens, blockTokens)
        invariant Valid() && SameClock(old(core), core) && Kept(v, State(), sequence, core.epoch)
        invariant EpochIs(State(), core.epoch, sequence)
        invariant first == EndToken(b, blockTokens)
        invariant Fitting(State(), sequence, blockTokens, tokens, core.epoch, short, b)
        invariant Sourced(v, State(), false, blockTokens)
        invariant ready ==> short == None && State() == v.(epoch := core.epoch)
        invariant Faring(v, State(), d, short, b) && Continues(State(), sequence, blockTokens, b, parentHash)
      {
        BlockIsInside(tokens, blockTokens, b);
        ReadyAgain(v, sequence, blockTokens, tokens, core.epoch, b);
        var fitted := FitBlock(sequence, tokens, b, first, parentHash, short, v, d);
        if fitted.Err? {
          return Err(fitted.error);
        }
        parentHash := fitted.value.0;
        short := fitted.value.1;
        first := first + blockTokens;
      }
      FareEnds(v, State(), d, short);
      return Ok(short);
    }

    /** Make room for a live sequence's tokens, or change nothing that is held. */
    method EnsureCapacity(sequence: nat, tokens: nat) returns (r: Result<(), CacheError>)
      requires Valid()
      modifies this, arena
      ensures Valid()
      ensures sequence == 0 || tokens == 0 ==> r == Err(BadArgument) && State() == old(State())
      ensures r.Ok? ==> ReadyUpTo(State(), sequence, blockTokens, tokens, BlockCount(tokens, blockTokens))
      ensures r.Ok? ==> AddsPrivately(old(State()), State()) && HoldsOn(old(State()), State(), sequence, blockTokens)
      ensures sequence != 0 && tokens != 0 ==> OthersKeep(old(State()), State(), sequence)
      ensures r.Err? && sequence != 0 && tokens != 0 ==> Restored(old(State()), State(), core.epoch)
      ensures sequence != 0 && tokens != 0 ==>
        (r.Ok? <==> CanMeet(old(State()), Demand(sequence, blockTokens, tokens, physicalBlocks)))
      ensures sequence != 0 && tokens != 0
              && ReadyUpTo(old(State()), sequence, blockTokens, tokens, BlockCount(tokens, blockTokens)) ==>
        && (r.Ok? <==> WithinUpTo(old(State()), sequence, blockTokens, physicalBlocks, BlockCount(tokens, blockTokens)))
        && (r.Ok? ==> State() == old(State()).(epoch := core.epoch))
    {
      if sequence == 0 || tokens == 0 {
        return Err(BadArgument);
      }
      ghost var v := State();
      BeginEpoch(sequence);
      if ReadyUpTo(v, sequence, blockTokens, tokens, BlockCount(tokens, blockTokens)) {
        ReadyIsMetIffWithin(v, Demand(sequence, blockTokens, tokens, physicalBlocks));
      }
      var fitted := FitBlocks(sequence, tokens, v);
      if fitted.Err? {
        Abandon(sequence, v);
        RestoredKeepsOthers(v, State(), sequence, core.epoch);
        return Err(fitted.error);
      }
      ghost var u := State();
      OpenFitting(u, sequence, blockTokens, tokens, core.epoch, fitted.value, BlockCount(tokens, blockTokens));
      var committed := CommitReservation(sequence, core.epoch);
      ghost var m := State();
      GoodHeads(core, arena.a, freeEntries, freeBindings);
      SoleCommits(u, m, fitted.value, sequence, core.epoch, blockTokens);
      GrowShort(fitted.value, sequence);
      FitsAreReady(u, m, State(), sequence, blockTokens, tokens, core.epoch, fitted.value,
                   BlockCount(tokens, blockTokens));
      OthersKeepTheirs(v, u, m, State(), sequence, core.epoch, blockTokens, fitted.value);
      AllIsHeldOn(v, u, m, State(), sequence, core.epoch, blockTokens, fitted.value);
      AddedBlocksArePrivate(v, u, m, State(), sequence, core.epoch, blockTokens, fitted.value);
      if u == v.(epoch := core.epoch) {
        NothingToCommit(v, m, sequence, core.epoch, blockTokens);
      }
      return Ok(());
    }

    /** The physical blocks that hold a sequence's tokens, in order. */
    method BuildBlockTable(sequence: nat, tokens: nat) returns (r: Result<seq<nat>, CacheError>)
      requires Valid()
      ensures r.Ok? <==>
        && sequence != 0 && tokens != 0
        && CoveredUpTo(State(), sequence, blockTokens, tokens, BlockCount(tokens, blockTokens))
      ensures r.Ok? ==> |r.value| == BlockCount(tokens, blockTokens) && HasAll(State(), sequence, blockTokens, r.value)
      ensures r.Err? ==> r.error == if sequence == 0 || tokens == 0 then BadArgument else Missing
    {
      if sequence == 0 || tokens == 0 {
        return Err(BadArgument);
      }
      GoodHeads(core, arena.a, freeEntries, freeBindings);
      var list: seq<nat>, first := [], 0;
      for b := 0 to BlockCount(tokens, blockTokens)
        invariant first == EndToken(b, blockTokens) && |list| == b && HasAll(State(), sequence, blockTokens, list)
        invariant CoveredUpTo(State(), sequence, blockTokens, tokens, b)
      {
        BlockIsInside(tokens, blockTokens, b);
        var needed := if first + blockTokens <= tokens then blockTokens else tokens - first;
        var found := FindBindingAt(sequence, first);
        CoveredOnlyIf(State(), sequence, blockTokens, tokens, BlockCount(tokens, blockTokens), b, found);
        if found.None? || core.bindings[found.value].tokens < needed {
          return Err(Missing);
        }
        HasOneMore(State(), sequence, blockTokens, list, found.value);
        list := list + [core.bindings[found.value].physical];
        first := first + blockTokens;
      }
      return Ok(list);
    }
  }
}
