/**
 * A sequence that still holds a short block, driven through the scheduler from an empty cache: its prompt is
 * extended and scheduled twice, or another sequence offers the whole block and the short one is skipped over.
 */
module ReusedSequence {
  import opened Blocks
  import opened Results
  import opened Sequences
  import opened KvArena
  import opened CacheView
  import opened CacheTransactions
  import opened CachePrompts
  import opened CacheRoom
  import opened CacheSteps
  import opened PrefixCache
  import opened PrefillRuns
  import opened ChunkedPrefill

  ghost predicate IsShort(v: View, sequence: nat, k: nat) {
    At(v, k, sequence, 0) && v.bindings[k].entry < |v.entries| && v.entries[v.bindings[k].entry].tokens == 1
  }

  /** The sequence holds a block of one token at its start. */
  ghost predicate HoldsShort(v: View, sequence: nat) {
    exists k: nat :: IsShort(v, sequence, k)
  }

  /** With blocks of two tokens that is not the first block of any prompt of two tokens or more. */
  lemma ShortIsForeign(v: View, h: Hasher, sequence: nat, tokens: seq<nat>)
    requires Coherent(v) && HoldsShort(v, sequence) && |tokens| >= 2
    ensures Foreign(v, h, sequence, tokens, 2, 0)
  {
    var k: nat :| IsShort(v, sequence, k);
    assert At(v, k, sequence, EndToken(0, 2));
    if Spelled(v, h, sequence, tokens, 2, 0) {
      SpelledByOwn(v, h, sequence, tokens, 2, 0, k);
      assert false;
    }
  }

  /** What prefilling a prompt of one token leaves. */
  lemma OneTokenIsShort(v: View, w: View, h: Hasher, sequence: nat, tokens: seq<nat>, limit: nat, d: Chunk)
    requires |tokens| == 1 && !HoldsAt(v, sequence, 0) && Admitted(v, w, h, sequence, tokens, 2, 0, limit, d)
    ensures HoldsShort(w, sequence) && EndOf(d) == 1
  {
    var u := v.(epoch := w.epoch);
    ChunkPastBlock(tokens, 2, 0, limit, d, 0);
    OpenReserving(u, w, h, sequence, tokens[..EndOf(d)], 2, true, d.table);
    assert HoldsOrSpells(u, w, h, sequence, tokens[..EndOf(d)], 2, 0);
    if k: nat :| At(u, k, sequence, EndToken(0, 2)) {
      assert At(v, k, sequence, 0);
      assert false;
    }
    var k: nat :| At(w, k, sequence, 0) && w.bindings[k].entry < |w.entries|
      && w.entries[w.bindings[k].entry].tokens == 1;
    assert IsShort(w, sequence, k);
  }

  lemma CommitKeepsShort(v: View, w: View, sequence: nat, other: nat, epoch: nat)
    requires HoldsShort(v, sequence) && Committed(v, w, other, epoch, 2)
    ensures HoldsShort(w, sequence)
  {
    var k: nat :| IsShort(v, sequence, k);
    assert SettlesAt(v, w, other, epoch, |v.bindings|, k);
    assert CommitsAt(v, w, epoch, 2, |v.entries|, v.bindings[k].entry);
    assert IsShort(w, sequence, k);
  }

  lemma AdmissionKeepsShort(v: View, w: View, h: Hasher, sequence: nat, tokens: seq<nat>, limit: nat, d: Chunk)
    requires Coherent(v.(epoch := w.epoch)) && HoldsShort(v, sequence)
    requires Admitted(v, w, h, sequence, tokens, 2, 0, limit, d)
    ensures HoldsShort(w, sequence) && |w.entries| == |v.entries|
  {
    var u := v.(epoch := w.epoch);
    OpenReserving(u, w, h, sequence, tokens[..EndOf(d)], 2, true, d.table);
    var k: nat :| IsShort(v, sequence, k);
    UsedBinding(u, k);
    assert OldBinding(u, w, k) && BoundEntry(u, w, u.bindings[k].entry);
    assert IsShort(w, sequence, k);
  }

  lemma EmptyHasRoom(v: View, n: nat)
    requires IsEmpty(v) && |v.entries| == |v.bindings| == |v.blocks| == n
    ensures Room(v, n)
  {
    DistinctAreCounted(UpTo(n), FreeBlocks(v));
    OpenRoom(v, n);
  }

  /** A first chunk of a prompt of one block, for a sequence that holds nothing at its start. */
  lemma RoomForFirst(v: View, h: Hasher, sequence: nat, tokens: seq<nat>, limit: nat, extra: nat)
    requires 0 < |tokens| <= 2 && limit >= 2 && !HoldsAt(v, sequence, 0) && Room(v, 1 + extra)
    ensures RoomForNext(v, h, sequence, tokens, 2, 0, limit, extra)
  {
    assert BlockCount(|tokens|, 2) == 1 && Unheld(v, sequence, 2, 0, 1) == 1;
    assert ReusableTokens(|tokens|, 2) == 0 by {
      assert |tokens| == 2 ==> BlockOf(1, 2) == 0;
    }
    assert Probed(v, h, sequence, tokens, 2, 0);
    assert ChunkEnd(0, limit, 2, |tokens|, 0) == |tokens|;
  }

  // ---- An extended prompt --------------------------------------------------

  const PROMPT: seq<nat> := [7, 8, 9, 10, 11]

  /** The only entry is the sequence's short block. */
  ghost predicate IsStuck(v: View) {
    Coherent(v) && |v.entries| == 1 && HoldsShort(v, 1)
  }

  lemma PromptSizes()
    ensures ReusableTokens(|PROMPT|, 2) == 4 && BlockCount(2, 2) == 1 && EndToken(0, 2) == 0
    ensures ChunkEnd(0, 2, 2, |PROMPT|, 0) == 2
  {
    assert BlockOf(4, 2) == 2 && EndToken(2, 2) == 4;
    assert ScheduledTokens(true, 0, 2, 2, 5, 0) == 2;
  }

  /** A probe finds nothing of the extended prompt. */
  lemma StuckProbe(v: View, h: Hasher)
    requires IsStuck(v)
    ensures Probed(v, h, 1, PROMPT, 2, 0)
  {
    var k: nat :| IsShort(v, 1, k);
    PromptSizes();
    ShortIsForeign(v, h, 1, PROMPT);
    assert !Offered(v, h, PROMPT, 2, 0);
    MatchesIff(v, h, 1, PROMPT, 2, 0);
  }

  /** Its first two tokens are admitted, with room or without. */
  lemma StuckRoom(v: View, h: Hasher)
    requires IsStuck(v)
    ensures RoomForNext(v, h, 1, PROMPT, 2, 0, 2, 0)
  {
    var k: nat :| IsShort(v, 1, k);
    PromptSizes();
    StuckProbe(v, h);
    assert HoldsAt(v, 1, EndToken(0, 2));
    assert Unheld(v, 1, 2, 0, 1) == 0;
    RoomForFewer(v, 0, 0);
    assert RoomForPrompt(v, 1, 2, 2, 0);
  }

  lemma StuckChunk(v: View, w: View, h: Hasher, d: Chunk)
    requires IsStuck(v) && Coherent(v.(epoch := w.epoch)) && Coherent(w) && Admitted(v, w, h, 1, PROMPT, 2, 0, 2, d)
    ensures d.offset == 0 && EndOf(d) == 2 && IsStuck(w)
  {
    PromptSizes();
    StuckProbe(v, h);
    ProbedIsUnique(v, h, 1, PROMPT, 2, d.matched, 0);
    AdmissionKeepsShort(v, w, h, 1, PROMPT, 2, d);
  }

  /** A prompt of one token is prefilled and then extended: two chunks of the longer prompt start at its first token. */
  method ExtendedPromptRepeats(hasher: Hasher)
    returns (first: Result<Chunk, CacheError>, again: Result<Chunk, CacheError>)
    ensures first.Ok? && again.Ok? && again.value.offset < EndOf(first.value) < |PROMPT|
  {
    var arena := new KvArena(1, 0);
    var created := PrefixCache.Create(arena, 2, hasher, 2, 1, 1, 1);
    var cache := created.value;
    var prefill := new Prefill(cache, 2);
    ghost var v := cache.State();
    EmptyHasRoom(v, 1);
    RoomForFirst(v, hasher, 1, [7], 2, 0);
    var short := prefill.Admit(1, [7], 0, 0);
    ghost var w := cache.State();
    OneTokenIsShort(v, w, hasher, 1, [7], 2, short.value);
    assert |w.entries| == 1;
    var completed := prefill.Complete(1, short.value);
    CommitKeepsShort(w, cache.State(), 1, 1, short.value.epoch);
    GoodHeads(cache.core, cache.arena.a, cache.freeEntries, cache.freeBindings);
    v := cache.State();
    StuckRoom(v, hasher);
    first := prefill.Admit(1, PROMPT, 0, 0);
    w := cache.State();
    StuckChunk(v, w, hasher, first.value);
    StuckRoom(w, hasher);
    again := prefill.Admit(1, PROMPT, 0, 0);
    StuckChunk(w, cache.State(), hasher, again.value);
  }

  // ---- A block somebody offers ---------------------------------------------

  const LONGER: seq<nat> := [7, 8, 9]

  /** The block of tokens 7 and 8 is bound to sequence 2. */
  ghost predicate IsOffer(v: View, h: Hasher, k: nat) {
    && At(v, k, 2, 0) && v.bindings[k].entry < |v.entries|
    && Offers(v, v.bindings[k].entry, EMPTY_PARENT, h.block([7, 8], EMPTY_PARENT), h.content([7, 8]), 0, 2)
  }

  ghost predicate HoldsOffer(v: View, h: Hasher) {
    exists k: nat :: IsOffer(v, h, k)
  }

  ghost predicate OnlyOf(v: View, sequence: nat) {
    forall k :: 0 <= k < |v.bindings| && v.bindings[k].valid ==> v.bindings[k].sequence == sequence
  }

  /** Prefilling tokens 7 and 8 leaves a block that anybody may share. */
  lemma CompletedIsOffered(v: View, m: View, w: View, h: Hasher, limit: nat, d: Chunk)
    requires Admitted(v, m, h, 2, [7, 8], 2, 0, limit, d) && !HoldsAt(v, 2, 0) && Coherent(v.(epoch := m.epoch))
    requires limit >= 2
    requires Sourced(v.(epoch := m.epoch), m, true, 2) && Committed(m, w, 2, d.epoch, 2)
    ensures HoldsOffer(w, h) && EndOf(d) == 2
  {
    var u := v.(epoch := m.epoch);
    ChunkPastBlock([7, 8], 2, 0, limit, d, 0);
    assert ReusableTokens(2, 2) == 0 by {
      assert BlockOf(1, 2) == 0;
    }
    assert d.matched == 0 && EndOf(d) == 2 && [7, 8][..2] == [7, 8];
    OpenReserving(u, m, h, 2, [7, 8][..EndOf(d)], 2, true, d.table);
    assert HoldsOrSpells(u, m, h, 2, [7, 8][..EndOf(d)], 2, 0);
    if k: nat :| At(u, k, 2, EndToken(0, 2)) {
      assert At(v, k, 2, 0);
      assert false;
    }
    var k: nat :|
      At(m, k, 2, 0) && m.bindings[k].entry < |m.entries|
      && Spells(m.entries[m.bindings[k].entry], EMPTY_PARENT, h.block([7, 8], EMPTY_PARENT), h.content([7, 8]), 0, 2);
    assert !At(u, k, 2, 0) && OldBinding(u, m, k) && SourcedAt(u, m, true, 2, k);
    assert SettlesAt(m, w, 2, d.epoch, |m.bindings|, k);
    assert CommitsAt(m, w, d.epoch, 2, |m.entries|, m.bindings[k].entry);
    assert IsOffer(w, h, k);
  }

  lemma AdmissionKeepsOffer(v: View, w: View, h: Hasher, epoch: nat)
    requires Coherent(v) && HoldsOffer(v, h) && Kept(v, w, 1, epoch)
    ensures HoldsOffer(w, h)
  {
    var k: nat :| IsOffer(v, h, k);
    UsedBinding(v, k);
    assert OldBinding(v, w, k) && OldEntry(v, w, v.bindings[k].entry);
    assert IsOffer(w, h, k);
  }

  lemma CommitKeepsOffer(v: View, w: View, h: Hasher, sequence: nat, epoch: nat)
    requires HoldsOffer(v, h) && Committed(v, w, sequence, epoch, 2)
    ensures HoldsOffer(w, h)
  {
    var k: nat :| IsOffer(v, h, k);
    assert SettlesAt(v, w, sequence, epoch, |v.bindings|, k);
    assert CommitsAt(v, w, epoch, 2, |v.entries|, v.bindings[k].entry);
    assert IsOffer(w, h, k);
  }

  lemma FirstIsAlone(v: View, m: View, w: View, epoch: nat)
    requires IsEmpty(v) && Kept(v, m, 2, epoch) && Committed(m, w, 2, epoch, 2)
    ensures OnlyOf(w, 2)
  {
    forall k | 0 <= k < |w.bindings| && w.bindings[k].valid ensures w.bindings[k].sequence == 2 {
      assert NewBinding(v, m, 2, epoch, k) && SettlesAt(m, w, 2, epoch, |m.bindings|, k);
    }
  }

  /** The short block is the only one sequence 1 holds. */
  lemma NothingBeyond(v: View, m: View, w: View, h: Hasher, limit: nat, d: Chunk)
    requires OnlyOf(v, 2) && Admitted(v, m, h, 1, [5], 2, 0, limit, d) && Committed(m, w, 1, d.epoch, 2)
    requires EndOf(d) == 1
    ensures !HoldsAt(w, 1, 2)
  {
    var u := v.(epoch := m.epoch);
    assert BlockCount(1, 2) == 1 && EndToken(1, 2) == 2;
    OpenReserving(u, m, h, 1, [5][..EndOf(d)], 2, true, d.table);
    if k: nat :| At(w, k, 1, 2) {
      assert SettlesAt(m, w, 1, d.epoch, |m.bindings|, k);
      assert At(m, k, 1, 2);
      assert false;
    }
  }

  lemma LongerSizes()
    ensures ReusableTokens(|LONGER|, 2) == 2 == EndToken(1, 2) && BlockCount(3, 2) == 2
    ensures ChunkEnd(0, 2, 2, |LONGER|, 1) == 3
  {
    assert BlockOf(2, 2) == 1;
  }

  lemma OfferMatches(v: View, h: Hasher)
    requires HoldsOffer(v, h)
    ensures Matches(v, h, 1, LONGER, 2, 0)
  {
    var l: nat :| IsOffer(v, h, l);
    assert BlockTokens(LONGER, 2, 0) == [7, 8] && EndToken(0, 2) == 0;
  }

  /** A probe counts the offered block. */
  lemma OfferedProbe(v: View, h: Hasher)
    requires HoldsOffer(v, h)
    ensures Probed(v, h, 1, LONGER, 2, 1)
  {
    LongerSizes();
    OfferMatches(v, h);
    assert MatchesUpTo(v, h, 1, LONGER, 2, 0);
  }

  /** There is room for the block after it. */
  lemma OfferedRoom(v: View, h: Hasher)
    requires HoldsShort(v, 1) && HoldsOffer(v, h) && !HoldsAt(v, 1, 2) && Room(v, 1)
    ensures RoomForNext(v, h, 1, LONGER, 2, 0, 2, 0)
  {
    var k: nat :| IsShort(v, 1, k);
    LongerSizes();
    OfferedProbe(v, h);
    assert HoldsAt(v, 1, EndToken(0, 2));
    assert Unheld(v, 1, 2, 2, 2) == 0;
    assert Unheld(v, 1, 2, 1, 2) == 1;
    assert Unheld(v, 1, 2, 0, 2) == 1;
    assert RoomForPrompt(v, 1, 2, 3, 0);
  }

  lemma SkippedShort(v: View, w: View, h: Hasher, d: Chunk)
    requires Coherent(v) && HoldsShort(v, 1) && Probed(v, h, 1, LONGER, 2, 1) && Coherent(v.(epoch := w.epoch))
    requires Coherent(w)
    requires Admitted(v, w, h, 1, LONGER, 2, 0, 2, d)
    ensures d.offset == 2 && Foreign(w, h, 1, LONGER, 2, 0) && |d.table| == 2 && Has(w, 1, 0, d.table[0])
  {
    LongerSizes();
    ProbedIsUnique(v, h, 1, LONGER, 2, d.matched, 1);
    ShortIsForeign(v, h, 1, LONGER);
    AdmissionKeepsForeign(v, w, h, 1, LONGER, 2, 0, 2, d, 0);
    OpenReserving(v.(epoch := w.epoch), w, h, 1, LONGER[..EndOf(d)], 2, true, d.table);
    assert HasAll(w, 1, 2, d.table[..1]) && d.table[..1][..0] == [];
  }

  /** The same from the state in which sequence 2 alone holds something: the block it offers. */
  method AdmitPastShort(cache: PrefixCache, prefill: Prefill) returns (d: Chunk)
    requires cache.Valid() && prefill.cache == cache && prefill.limit == 2 && cache.blockTokens == 2
    requires HoldsOffer(cache.State(), cache.hasher) && OnlyOf(cache.State(), 2) && Room(cache.State(), 2)
    modifies cache, cache.arena
    ensures cache.Valid() && d.offset == 2 && |d.table| == 2
    ensures Foreign(cache.State(), cache.hasher, 1, LONGER, 2, 0) && Has(cache.State(), 1, 0, d.table[0])
  {
    ghost var v := cache.State();
    GoodHeads(cache.core, cache.arena.a, cache.freeEntries, cache.freeBindings);
    RoomForFirst(v, cache.hasher, 1, [5], 2, 1);
    var short := prefill.Admit(1, [5], 0, 1);
    ghost var m := cache.State();
    OneTokenIsShort(v, m, cache.hasher, 1, [5], 2, short.value);
    AdmissionKeepsOffer(v, m, cache.hasher, cache.core.epoch);
    var completed := prefill.Complete(1, short.value);
    ghost var w := cache.State();
    CommitKeepsShort(m, w, 1, 1, short.value.epoch);
    CommitKeepsOffer(m, w, cache.hasher, 1, short.value.epoch);
    CommittedRoom(m, w, 1, short.value.epoch, 2, 1);
    NothingBeyond(v, m, w, cache.hasher, 2, short.value);
    GoodHeads(cache.core, cache.arena.a, cache.freeEntries, cache.freeBindings);
    OfferedProbe(w, cache.hasher);
    OfferedRoom(w, cache.hasher);
    var admitted := prefill.Admit(1, LONGER, 0, 0);
    d := admitted.value;
    SkippedShort(w, cache.State(), cache.hasher, d);
  }

  /**
   * Sequence 2 offers the block of tokens 7 and 8; sequence 1 holds a short block. Its prompt 7, 8, 9 is then
   * admitted from the third token on, with the short block in its table.
   */
  method OfferedBlockIsSkipped(hasher: Hasher) returns (cache: PrefixCache, d: Chunk)
    ensures cache.Valid() && d.offset == 2 && |d.table| == 2
    ensures Foreign(cache.State(), hasher, 1, LONGER, 2, 0) && Has(cache.State(), 1, 0, d.table[0])
  {
    var arena := new KvArena(3, 0);
    var created := PrefixCache.Create(arena, 2, hasher, 2, 3, 3, 3);
    cache := created.value;
    var prefill := new Prefill(cache, 2);
    ghost var v := cache.State();
    EmptyHasRoom(v, 3);
    RoomForFirst(v, hasher, 2, [7, 8], 2, 2);
    var offer := prefill.Admit(2, [7, 8], 0, 2);
    ghost var m := cache.State();
    var completed := prefill.Complete(2, offer.value);
    CompletedIsOffered(v, m, cache.State(), hasher, 2, offer.value);
    CommittedRoom(m, cache.State(), 2, offer.value.epoch, 2, 2);
    FirstIsAlone(v, m, cache.State(), offer.value.epoch);
    d := AdmitPastShort(cache, prefill);
  }
}
