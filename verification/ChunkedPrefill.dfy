/** The scheduler's prefill side: a prompt's next chunk is admitted, then completed or cancelled. */
module ChunkedPrefill {
  import opened Blocks
  import opened Results
  import opened CacheView
  import opened CacheTransactions
  import opened CachePrompts
  import opened CacheCapacity
  import opened CacheRoom
  import opened CacheSteps
  import opened PrefixCache
  import opened PrefillRuns

  /** The block that reaches the end is the last. */
  lemma LastBlock(n: nat, blockTokens: nat, blocks: nat)
    requires blockTokens > 0 && 0 < blocks <= BlockCount(n, blockTokens) && n <= EndToken(blocks, blockTokens)
    ensures blocks == BlockCount(n, blockTokens)
  {
    var last: nat := BlockCount(n, blockTokens) - 1;
    if blocks <= last {
      EndTokenIncreases(blocks, last, blockTokens);
      assert false;
    }
  }

  /** Hash a prompt block by block: the same chain the cache reserves and probes by. */
  method HashPrompt(h: Hasher, blockTokens: nat, tokens: seq<nat>) returns (hash: nat, blocks: nat)
    requires blockTokens > 0
    ensures blocks == BlockCount(|tokens|, blockTokens) && hash == ChainHash(h, tokens, blockTokens, blocks)
  {
    var first: nat := 0;
    hash, blocks := EMPTY_PARENT, 0;
    while first < |tokens|
      invariant hash == ChainHash(h, tokens, blockTokens, blocks) && blocks <= BlockCount(|tokens|, blockTokens)
      invariant if first < |tokens| then first == EndToken(blocks, blockTokens)
                else blocks == BlockCount(|tokens|, blockTokens)
      decreases |tokens| - first
    {
      BlockBelow(blocks, |tokens|, blockTokens);
      var block := if first + blockTokens <= |tokens| then tokens[first..first + blockTokens] else tokens[first..];
      hash := h.block(block, hash);
      first := first + |block|;
      blocks := blocks + 1;
      if first == |tokens| {
        LastBlock(|tokens|, blockTokens, blocks);
      }
    }
  }

  lemma TickedGrows(v: View, u: View, w: View)
    requires Ticked(v, u) && Grows(u, w)
    ensures Grows(v, w)
  {
    forall k | 0 <= k < |v.bindings| ensures OldBinding(v, w, k) {
      assert OldBinding(u, w, k);
    }
    forall i | 0 <= i < |v.entries| ensures BoundEntry(v, w, i) {
      assert BoundEntry(u, w, i) && TickedAt(v, u, i);
    }
  }

  lemma TickedGains(v: View, u: View, w: View, sequence: nat, bound: nat)
    requires u.bindings == v.bindings && GainedBelow(u, w, sequence, bound)
    ensures GainedBelow(v, w, sequence, bound)
  {
    forall k: nat, f: nat | At(w, k, sequence, f) && f >= bound ensures At(v, k, sequence, f) {
      assert At(u, k, sequence, f);
    }
  }

  lemma {:induction false} MatchesUpToAnytime(v: View, u: View, h: Hasher, sequence: nat, tokens: seq<nat>,
                                              blockTokens: nat, n: nat)
    requires Ticked(v, u) && MatchesUpTo(v, h, sequence, tokens, blockTokens, n)
    ensures MatchesUpTo(u, h, sequence, tokens, blockTokens, n)
  {
    if n > 0 {
      MatchesUpToAnytime(v, u, h, sequence, tokens, blockTokens, n - 1);
      MatchesAnytime(v, u, h, sequence, tokens, blockTokens, n - 1);
    }
  }

  lemma {:induction false} TickedOld(v: View, u: View, w: View, sequence: nat, blockTokens: nat, n: nat)
    requires Ticked(v, u) && OldUpTo(u, w, sequence, blockTokens, n)
    ensures OldUpTo(v, w, sequence, blockTokens, n)
  {
    if n > 0 {
      TickedOld(v, u, w, sequence, blockTokens, n - 1);
      var k: nat :| At(w, k, sequence, EndToken(n - 1, blockTokens)) && IsOld(u, w, w.bindings[k].entry);
      assert TickedAt(v, u, w.bindings[k].entry);
      assert IsOld(v, w, w.bindings[k].entry);
    }
  }

  lemma TickedShares(v: View, u: View, w: View, h: Hasher, sequence: nat, tokens: seq<nat>, blockTokens: nat,
                     cross: bool, b: nat, n: nat)
    requires Ticked(v, u) && ReusesFound(u, w, h, sequence, tokens, blockTokens, cross, b, n)
    ensures ReusesFound(v, w, h, sequence, tokens, blockTokens, cross, b, n)
  {
    if MatchesUpTo(v, h, sequence, tokens, blockTokens, n) {
      MatchesUpToAnytime(v, u, h, sequence, tokens, blockTokens, n);
    }
    if OldUpTo(u, w, sequence, blockTokens, n) {
      TickedOld(v, u, w, sequence, blockTokens, n);
    }
    if Untaken(u, w) {
      forall i | 0 <= i < |v.entries| ensures HeldEntry(v.entries[i], w.entries[i]) {
        assert TickedAt(v, u, i) && HeldEntry(u.entries[i], w.entries[i]);
      }
    }
  }

  /** Ticks do not matter to a reservation. */
  lemma TickedReserves(v: View, u: View, w: View, h: Hasher, sequence: nat, tokens: seq<nat>, blockTokens: nat,
                       cross: bool, list: seq<nat>)
    requires Coherent(v) && Ticked(v, u) && Reserving(u, w, h, sequence, tokens, blockTokens, cross, list)
    ensures Reserving(v, w, h, sequence, tokens, blockTokens, cross, list)
  {
    OpenReserving(v, w, h, sequence, tokens, blockTokens, cross, list);
    OpenReserving(u, w, h, sequence, tokens, blockTokens, cross, list);
    TickedGrows(v, u, w);
    TickedGains(v, u, w, sequence, EndToken(|list|, blockTokens));
    forall b: nat | b < |list| ensures HoldsOrSpells(v, w, h, sequence, tokens, blockTokens, b) {
      assert HoldsOrSpells(u, w, h, sequence, tokens, blockTokens, b);
      if k: nat :| At(u, k, sequence, EndToken(b, blockTokens)) {
        assert At(v, k, sequence, EndToken(b, blockTokens));
      }
    }
    forall n: nat | n <= |list| ensures ReusesFound(v, w, h, sequence, tokens, blockTokens, cross, |list|, n) {
      TickedShares(v, u, w, h, sequence, tokens, blockTokens, cross, |list|, n);
    }
  }

  lemma TickedLater(v: View, u: View, epoch: nat)
    requires Ticked(v, u)
    ensures Ticked(v.(epoch := epoch), u.(epoch := epoch))
  {
    forall i | 0 <= i < |v.entries| ensures TickedAt(v.(epoch := epoch), u.(epoch := epoch), i) {
      assert TickedAt(v, u, i);
    }
  }

  lemma TickedRestores(v: View, u: View, w: View, epoch: nat)
    requires Ticked(v, u) && Restored(u, w, epoch)
    ensures Restored(v, w, epoch)
  {
    forall k | 0 <= k < |v.bindings| ensures OldBinding(v, w, k) && (w.bindings[k].valid ==> v.bindings[k].valid) {
      assert OldBinding(u, w, k);
    }
    forall i | 0 <= i < |v.entries|
      ensures OldEntry(v, w, i) && (HeldEntry(v.entries[i], w.entries[i]) || w.entries[i] == NO_ENTRY)
    {
      assert OldEntry(u, w, i) && TickedAt(v, u, i);
    }
  }

  /** Room for every block of a prompt that the sequence holds nothing at. */
  ghost predicate RoomForPrompt(v: View, sequence: nat, blockTokens: nat, tokens: nat, extra: nat) {
    Room(v, Unheld(v, sequence, blockTokens, 0, BlockCount(tokens, blockTokens)) + extra)
  }

  /** Room for the blocks of the prompt's next chunk that the sequence holds nothing at. */
  ghost predicate RoomForNext(v: View, h: Hasher, sequence: nat, tokens: seq<nat>, blockTokens: nat, requested: nat,
                              limit: nat, extra: nat)
    requires blockTokens > 0
  {
    exists m: nat ::
      && Probed(v, h, sequence, tokens, blockTokens, m) && EndToken(m, blockTokens) <= |tokens|
      && RoomForPrompt(v, sequence, blockTokens, ChunkEnd(requested, limit, blockTokens, |tokens|, m), extra)
  }

  /** A probe does not change the room there is. */
  lemma RoomAfterProbe(v: View, u: View, sequence: nat, blockTokens: nat, tokens: nat, extra: nat)
    requires Ticked(v, u)
    ensures RoomForPrompt(v, sequence, blockTokens, tokens, extra) <==>
      RoomForPrompt(u, sequence, blockTokens, tokens, extra)
  {
    UnheldSame(v, u, sequence, blockTokens, 0, BlockCount(tokens, blockTokens));
    forall i | 0 <= i < |v.entries| ensures Evictable(u.entries[i]) == Evictable(v.entries[i]) {
      assert TickedAt(v, u, i);
    }
    SameRoom(v, u, Unheld(v, sequence, blockTokens, 0, BlockCount(tokens, blockTokens)) + extra);
  }

  /** The room for the next chunk is room for the one a probe chooses. */
  lemma NextIsChosen(v: View, u: View, h: Hasher, sequence: nat, tokens: seq<nat>, blockTokens: nat, requested: nat,
                     limit: nat, extra: nat, d: Chunk)
    requires blockTokens > 0 && Ticked(v, u)
    requires RoomForNext(v, h, sequence, tokens, blockTokens, requested, limit, extra)
    requires Probed(v, h, sequence, tokens, blockTokens, d.matched)
    requires d.offset == EndToken(d.matched, blockTokens) <= |tokens|
    requires d.count == ScheduledTokens(true, requested, limit, blockTokens, |tokens|, d.offset)
    ensures RoomForPrompt(u, sequence, blockTokens, EndOf(d), extra)
  {
    var m: nat :|
      && Probed(v, h, sequence, tokens, blockTokens, m) && EndToken(m, blockTokens) <= |tokens|
      && RoomForPrompt(v, sequence, blockTokens, ChunkEnd(requested, limit, blockTokens, |tokens|, m), extra);
    var end := ChunkEnd(requested, limit, blockTokens, |tokens|, m);
    assert end == EndOf(d) by {
      ProbedIsUnique(v, h, sequence, tokens, blockTokens, m, d.matched);
    }
    RoomAfterProbe(v, u, sequence, blockTokens, EndOf(d), extra);
  }

  /** Room for a prompt is room for its chunks. */
  lemma RoomForChunk(v: View, sequence: nat, blockTokens: nat, tokens: nat, end: nat, extra: nat)
    requires end <= tokens && RoomForPrompt(v, sequence, blockTokens, tokens, extra)
    ensures RoomForPrompt(v, sequence, blockTokens, end, extra)
  {
    var all, some := BlockCount(tokens, blockTokens), BlockCount(end, blockTokens);
    var most, fewer := Unheld(v, sequence, blockTokens, 0, all), Unheld(v, sequence, blockTokens, 0, some);
    BlockCountIncreases(end, tokens, blockTokens);
    UnheldFewer(v, sequence, blockTokens, 0, some, all);
    RoomForFewer(v, most + extra, fewer + extra);
  }

  lemma TickedKeeps(v: View, u: View, w: View, sequence: nat, epoch: nat, blockTokens: nat)
    requires Ticked(v, u) && Kept(u, w, sequence, epoch) && Sourced(u.(epoch := epoch), w, true, blockTokens)
    ensures Kept(v, w, sequence, epoch) && Sourced(v.(epoch := epoch), w, true, blockTokens)
  {
    forall k | 0 <= k < |v.bindings|
      ensures OldBinding(v, w, k) && NewBinding(v, w, sequence, epoch, k)
      ensures SourcedAt(v.(epoch := epoch), w, true, blockTokens, k)
    {
      assert OldBinding(u, w, k) && NewBinding(u, w, sequence, epoch, k);
      assert SourcedAt(u.(epoch := epoch), w, true, blockTokens, k);
    }
    forall i | 0 <= i < |v.entries| ensures OldEntry(v, w, i) && FreshEntry(v, w, epoch, i) {
      assert TickedAt(v, u, i) && OldEntry(u, w, i) && FreshEntry(u, w, epoch, i);
    }
  }

  /** A chosen chunk whose blocks are reserved is an admitted one. */
  lemma ChosenIsAdmitted(v: View, w: View, h: Hasher, sequence: nat, tokens: seq<nat>, blockTokens: nat, requested: nat,
                         limit: nat, d: Chunk, table: seq<nat>)
    requires blockTokens > 0 && Probed(v, h, sequence, tokens, blockTokens, d.matched)
    requires d.offset == EndToken(d.matched, blockTokens) < |tokens| && EndOf(d) <= |tokens|
    requires d.count == ScheduledTokens(true, requested, limit, blockTokens, |tokens|, d.offset)
    requires |table| == BlockCount(EndOf(d), blockTokens)
    requires Reserving(v.(epoch := w.epoch), w, h, sequence, tokens[..EndOf(d)], blockTokens, true, table)
    ensures Admitted(v, w, h, sequence, tokens, blockTokens, requested, limit, d.(table := table, epoch := w.epoch))
  {
  }

  /** A later epoch does not upset a coherent state. */
  lemma LaterIsCoherent(v: View, epoch: nat)
    requires Coherent(v) && epoch >= v.epoch
    ensures Coherent(v.(epoch := epoch))
  {
    SameHoldingsAreCoherent(v, v.(epoch := epoch));
  }

  /** The chunk chosen lies within the prompt. */
  lemma ReusableLeavesOne(n: nat, blockTokens: nat, matched: nat, requested: nat, limit: nat) returns (whole: nat)
    requires blockTokens > 0 && n > 0 && EndToken(matched, blockTokens) <= ReusableTokens(n, blockTokens)
    ensures EndToken(matched, blockTokens) < n
    ensures var computed := EndToken(matched, blockTokens);
      0 < ScheduledTokens(true, requested, limit, blockTokens, n, computed) <= n - computed
  {
    whole := StepIsWholeOrFinal(requested, limit, blockTokens, n, matched);
  }

  lemma HashOfMatched(h: Hasher, tokens: seq<nat>, blockTokens: nat, matched: nat)
    requires blockTokens > 0 && EndToken(matched, blockTokens) <= |tokens|
    ensures var computed := EndToken(matched, blockTokens);
      BlockCount(computed, blockTokens) == matched
      && ChainHash(h, tokens[..computed], blockTokens, matched) == ChainHash(h, tokens, blockTokens, matched)
  {
    BlocksOfWholeBlocks(matched, blockTokens);
    ChainOfPrefix(h, tokens, blockTokens, EndToken(matched, blockTokens), matched, matched);
  }

  class Prefill {
    const cache: PrefixCache
    const limit: nat

    /** The scheduler's own limit is at least a block. */
    constructor (cache: PrefixCache, limit: nat)
      ensures this.cache == cache && this.limit == if limit < cache.blockTokens then cache.blockTokens else limit
    {
      this.cache := cache;
      this.limit := if limit < cache.blockTokens then cache.blockTokens else limit;
    }

    /** Where the next chunk of a prompt starts and how long it is. */
    method Choose(sequence: nat, tokens: seq<nat>, requested: nat) returns (d: Chunk)
      requires cache.Valid() && sequence != 0 && tokens != []
      modifies cache`core
      ensures cache.Valid() && Ticked(old(cache.State()), cache.State()) && cache.core.epoch == old(cache.core.epoch)
      ensures Probed(old(cache.State()), cache.hasher, sequence, tokens, cache.blockTokens, d.matched)
      ensures d.offset == EndToken(d.matched, cache.blockTokens) < |tokens| && 0 < EndOf(d) <= |tokens|
      ensures d.count == ScheduledTokens(true, requested, limit, cache.blockTokens, |tokens|, d.offset)
    {
      var probed;
      ghost var found;
      probed, found := cache.ProbePrompt(sequence, tokens);
      ghost var whole := ReusableLeavesOne(|tokens|, cache.blockTokens, probed.value.1, requested, limit);
      var count := ScheduledTokens(true, requested, limit, cache.blockTokens, |tokens|, probed.value.0);
      return Chunk(probed.value.0, count, probed.value.1, [], 0);
    }

    /** Reserve the blocks of a chosen chunk, from state `v` before the probe. */
    method ReserveChosen(sequence: nat, tokens: seq<nat>, d: Chunk, ghost v: View, ghost extra: nat)
      returns (r: Result<Chunk, CacheError>)
      requires cache.Valid() && sequence != 0 && 0 < EndOf(d) <= |tokens| && Coherent(v) && Ticked(v, cache.State())
      modifies cache, cache.arena
      ensures cache.Valid() && cache.core.epoch > v.epoch
      ensures r.Ok? ==>
        && r.value == d.(table := r.value.table, epoch := cache.core.epoch)
        && |r.value.table| == BlockCount(EndOf(d), cache.blockTokens)
        && Reserving(v.(epoch := cache.core.epoch), cache.State(), cache.hasher, sequence, tokens[..EndOf(d)],
                     cache.blockTokens, true, r.value.table)
        && Kept(v, cache.State(), sequence, cache.core.epoch)
        && Sourced(v.(epoch := cache.core.epoch), cache.State(), true, cache.blockTokens)
      ensures r.Err? ==> Restored(v, cache.State(), cache.core.epoch)
      ensures RoomForPrompt(old(cache.State()), sequence, cache.blockTokens, EndOf(d), extra) ==>
        r.Ok? && Room(cache.State(), extra)
    {
      ghost var u := cache.State();
      var reserved := cache.ReservePrompt(sequence, tokens[..EndOf(d)], true, extra);
      if reserved.Err? {
        TickedRestores(v, u, cache.State(), cache.core.epoch);
        return Err(reserved.error);
      }
      ghost var w := cache.State();
      LaterIsCoherent(v, w.epoch);
      TickedLater(v, u, w.epoch);
      TickedKeeps(v, u, w, sequence, w.epoch, cache.blockTokens);
      TickedReserves(v.(epoch := w.epoch), u.(epoch := w.epoch), w, cache.hasher, sequence, tokens[..EndOf(d)],
                     cache.blockTokens, true, reserved.value);
      return Ok(d.(table := reserved.value, epoch := cache.core.epoch));
    }

    /**
     * Admit the next chunk of a prompt. A rejected admission leaves all that was held. `extra` is room the caller
     * asks about beyond what the chunk needs.
     */
    method Admit(sequence: nat, tokens: seq<nat>, requested: nat, ghost extra: nat)
      returns (r: Result<Chunk, CacheError>)
      requires cache.Valid()
      modifies cache, cache.arena
      ensures cache.Valid()
      ensures sequence == 0 || tokens == [] ==> r == Err(BadArgument) && cache.State() == old(cache.State())
      ensures r.Ok? ==> Coherent(old(cache.State()).(epoch := cache.core.epoch)) && Coherent(cache.State())
      ensures r.Ok? ==>
        Admitted(old(cache.State()), cache.State(), cache.hasher, sequence, tokens, cache.blockTokens, requested,
                 limit, r.value)
      ensures r.Ok? ==>
        && Kept(old(cache.State()), cache.State(), sequence, cache.core.epoch)
        && Sourced(old(cache.State()).(epoch := cache.core.epoch), cache.State(), true, cache.blockTokens)
      ensures r.Err? && sequence != 0 && tokens != [] ==> Restored(old(cache.State()), cache.State(), cache.core.epoch)
      ensures sequence != 0 && tokens != []
              && (|| RoomForNext(old(cache.State()), cache.hasher, sequence, tokens, cache.blockTokens, requested,
                                 limit, extra)
                  || RoomForPrompt(old(cache.State()), sequence, cache.blockTokens, |tokens|, extra)) ==>
        r.Ok? && Room(cache.State(), extra)
    {
      if sequence == 0 || tokens == [] {
        return Err(BadArgument);
      }
      ghost var v := cache.State();
      GoodHeads(cache.core, cache.arena.a, cache.freeEntries, cache.freeBindings);
      var d := Choose(sequence, tokens, requested);
      if RoomForPrompt(v, sequence, cache.blockTokens, |tokens|, extra) {
        RoomForChunk(v, sequence, cache.blockTokens, |tokens|, EndOf(d), extra);
        RoomAfterProbe(v, cache.State(), sequence, cache.blockTokens, EndOf(d), extra);
      }
      if RoomForNext(v, cache.hasher, sequence, tokens, cache.blockTokens, requested, limit, extra) {
        NextIsChosen(v, cache.State(), cache.hasher, sequence, tokens, cache.blockTokens, requested, limit, extra, d);
      }
      r := ReserveChosen(sequence, tokens, d, v, extra);
      GoodHeads(cache.core, cache.arena.a, cache.freeEntries, cache.freeBindings);
      LaterIsCoherent(v, cache.core.epoch);
      if r.Ok? {
        ChosenIsAdmitted(v, cache.State(), cache.hasher, sequence, tokens, cache.blockTokens, requested, limit, d,
                         r.value.table);
      }
    }

    /** The hash of the tokens before a chunk: the parent of the chunk's first block in the cache. */
    method ParentHash(tokens: seq<nat>, d: Chunk) returns (hash: nat)
      requires cache.Valid() && d.offset == EndToken(d.matched, cache.blockTokens) <= |tokens|
      ensures hash == ChainHash(cache.hasher, tokens, cache.blockTokens, d.matched)
    {
      HashOfMatched(cache.hasher, tokens, cache.blockTokens, d.matched);
      var blocks;
      hash, blocks := HashPrompt(cache.hasher, cache.blockTokens, tokens[..d.offset]);
    }

    /** Complete an admitted chunk: its blocks are committed, and a probe may see them. */
    method Complete(sequence: nat, d: Chunk) returns (r: Result<(), CacheError>)
      requires cache.Valid()
      modifies cache, cache.arena
      ensures cache.Valid()
      ensures EndOf(d) != 0 && sequence != 0 && d.epoch != 0 ==>
        r.Ok? && Committed(old(cache.State()), cache.State(), sequence, d.epoch, cache.blockTokens)
      ensures EndOf(d) == 0 || r.Err? ==> cache.State() == old(cache.State())
    {
      if EndOf(d) == 0 {
        return Ok(());
      }
      r := cache.CommitReservation(sequence, d.epoch);
    }

    /** Cancel an admitted chunk: every block it newly reserved is given back. */
    method Cancel(sequence: nat, d: Chunk) returns (r: Result<(), CacheError>)
      requires cache.Valid()
      modifies cache, cache.arena
      ensures cache.Valid()
      ensures r == if sequence == 0 && d.epoch != 0 then Err(BadArgument) else Ok(())
      ensures d.epoch != 0 && r.Ok? ==> Withdrawn(old(cache.State()), cache.State(), sequence, d.epoch)
      ensures d.epoch != 0 && r.Ok? && EpochIs(old(cache.State()), d.epoch, sequence) ==>
        RolledBack(old(cache.State()), cache.State(), sequence, d.epoch)
      ensures d.epoch == 0 || r.Err? ==> cache.State() == old(cache.State())
    {
      if d.epoch == 0 {
        return Ok(());
      }
      r := cache.CancelReservation(sequence, d.epoch);
    }
  }
}
