/**
 * Chunked prefill over the prefix cache: in every run, whatever other sequences
 * do meanwhile, the chunks of a prompt follow one another and reach its end.
 */
module PrefillRuns {
  import opened Arithmetic
  import opened Blocks
  import opened CacheView
  import opened CacheTransactions
  import opened CachePrompts
  import opened CacheCapacity

  // ---- Chunk sizes ---------------------------------------------------------

  function RoundDown(value: nat, multiple: nat): nat {
    if multiple == 0 then value else value - value % multiple
  }

  /** Tokens a request may have prefilled in one step: its own limit within the scheduler's, and at least a block. */
  function StepLimit(requested: nat, limit: nat, blockTokens: nat): nat {
    var most := if requested == 0 || requested > limit then limit else requested;
    if most < blockTokens then blockTokens else most
  }

  /** Tokens of the next step, when `computed` of `prompt` are done. */
  function ScheduledTokens(chunked: bool, requested: nat, limit: nat, blockTokens: nat, prompt: nat, computed: nat): nat
    requires computed <= prompt
  {
    var remaining, most := prompt - computed, StepLimit(requested, limit, blockTokens);
    if !chunked || remaining <= most then remaining
    else
      var whole := RoundDown(most, blockTokens);
      if whole == 0 then if remaining < blockTokens then remaining else blockTokens else whole
  }

  /** Where the next step ends when `matched` blocks need not be computed. */
  function ChunkEnd(requested: nat, limit: nat, blockTokens: nat, prompt: nat, matched: nat): nat
    requires EndToken(matched, blockTokens) <= prompt
  {
    var computed := EndToken(matched, blockTokens);
    computed + ScheduledTokens(true, requested, limit, blockTokens, prompt, computed)
  }

  /** Rounding down leaves whole blocks, and does not lose all of them. */
  lemma {:induction false} RoundDownIsWhole(value: nat, blockTokens: nat)
    requires blockTokens > 0
    ensures RoundDown(value, blockTokens) == EndToken(BlockOf(value, blockTokens), blockTokens)
  {
    if value >= blockTokens {
      RoundDownIsWhole(value - blockTokens, blockTokens);
      assert value % blockTokens == (value - blockTokens) % blockTokens by {
        RemainderIsModulo(value, blockTokens);
        RemainderIsModulo(value - blockTokens, blockTokens);
      }
    }
  }

  lemma {:induction false} EndTokensAdd(a: nat, b: nat, blockTokens: nat)
    ensures EndToken(a + b, blockTokens) == EndToken(a, blockTokens) + EndToken(b, blockTokens)
  {
    if b > 0 {
      EndTokensAdd(a, b - 1, blockTokens);
    }
  }

  lemma {:induction false} BlocksOfWholeBlocks(n: nat, blockTokens: nat)
    requires blockTokens > 0
    ensures BlockCount(EndToken(n, blockTokens), blockTokens) == n
  {
    if n > 0 {
      BlocksOfWholeBlocks(n - 1, blockTokens);
    }
  }

  /** A step that does not finish the prompt is one or more whole blocks. Any step is of at least one token. */
  lemma StepIsWholeOrFinal(requested: nat, limit: nat, blockTokens: nat, prompt: nat, m: nat) returns (n: nat)
    requires blockTokens > 0 && EndToken(m, blockTokens) < prompt
    ensures var computed := EndToken(m, blockTokens);
      var count := ScheduledTokens(true, requested, limit, blockTokens, prompt, computed);
      && 0 < count <= prompt - computed
      && (computed + count < prompt ==> m < n && computed + count == EndToken(n, blockTokens))
  {
    var most := StepLimit(requested, limit, blockTokens);
    var whole := BlockOf(most, blockTokens);
    RoundDownIsWhole(most, blockTokens);
    BlockOfIncreases(blockTokens, most, blockTokens);
    EndTokensAdd(m, whole, blockTokens);
    EndTokenIncreases(1, whole, blockTokens);
    n := m + whole;
  }

  /** What one step may compute: the request's own limit, if it has one, within the scheduler's; at least a block. */
  function StepCap(requested: nat, limit: nat, blockTokens: nat): nat {
    Max(blockTokens, if requested == 0 then limit else Min(requested, limit))
  }

  /**
   * A step takes all that is left when that is within its cap, and otherwise the largest number of whole blocks
   * within the cap.
   */
  lemma StepIsLargest(requested: nat, limit: nat, blockTokens: nat, prompt: nat, computed: nat)
    requires blockTokens > 0 && computed <= prompt
    ensures var count, cap :=
        ScheduledTokens(true, requested, limit, blockTokens, prompt, computed), StepCap(requested, limit, blockTokens);
      && count <= cap
      && (prompt - computed <= cap ==> count == prompt - computed)
      && (prompt - computed > cap ==>
            cap < count + blockTokens && count == EndToken(BlockOf(cap, blockTokens), blockTokens))
  {
    RoundDownIsWhole(StepLimit(requested, limit, blockTokens), blockTokens);
    BlockOfIncreases(blockTokens, StepLimit(requested, limit, blockTokens), blockTokens);
    EndTokenIncreases(1, BlockOf(StepLimit(requested, limit, blockTokens), blockTokens), blockTokens);
  }

  // ---- Prefixes of a prompt ------------------------------------------------

  /** A cut of a prompt between blocks, or at its end. */
  ghost predicate IsCut(tokens: seq<nat>, blockTokens: nat, end: nat, n: nat) {
    end <= |tokens| && n == BlockCount(end, blockTokens) && (end == |tokens| || end == EndToken(n, blockTokens))
  }

  lemma BlocksOfPrefix(tokens: seq<nat>, blockTokens: nat, end: nat, n: nat, b: nat)
    requires blockTokens > 0 && IsCut(tokens, blockTokens, end, n) && b < n
    ensures BlockTokens(tokens[..end], blockTokens, b) == BlockTokens(tokens, blockTokens, b)
  {
    EndTokenIncreases(b + 1, n, blockTokens);
    BlockIsInside(end, blockTokens, b);
    assert end == |tokens| ==> tokens[..end] == tokens;
  }

  lemma {:induction false} ChainOfPrefix(h: Hasher, tokens: seq<nat>, blockTokens: nat, end: nat, n: nat, b: nat)
    requires blockTokens > 0 && IsCut(tokens, blockTokens, end, n) && b <= n
    ensures ChainHash(h, tokens[..end], blockTokens, b) == ChainHash(h, tokens, blockTokens, b)
  {
    if b > 0 {
      ChainOfPrefix(h, tokens, blockTokens, end, n, b - 1);
      BlocksOfPrefix(tokens, blockTokens, end, n, b - 1);
    }
  }

  lemma SpelledInPrefix(v: View, h: Hasher, sequence: nat, tokens: seq<nat>, blockTokens: nat, end: nat, n: nat, b: nat)
    requires blockTokens > 0 && IsCut(tokens, blockTokens, end, n) && b < n
    ensures Spelled(v, h, sequence, tokens[..end], blockTokens, b) <==> Spelled(v, h, sequence, tokens, blockTokens, b)
  {
    ChainOfPrefix(h, tokens, blockTokens, end, n, b);
    BlocksOfPrefix(tokens, blockTokens, end, n, b);
  }

  lemma {:induction false} SpelledUpToInPrefix(v: View, h: Hasher, sequence: nat, tokens: seq<nat>, blockTokens: nat,
                                               end: nat, n: nat, b: nat)
    requires blockTokens > 0 && IsCut(tokens, blockTokens, end, n) && b <= n
    requires SpelledUpTo(v, h, sequence, tokens[..end], blockTokens, b)
    ensures SpelledUpTo(v, h, sequence, tokens, blockTokens, b)
  {
    if b > 0 {
      SpelledUpToInPrefix(v, h, sequence, tokens, blockTokens, end, n, b - 1);
      SpelledInPrefix(v, h, sequence, tokens, blockTokens, end, n, b - 1);
    }
  }

  lemma BlockBelow(b: nat, end: nat, blockTokens: nat)
    requires blockTokens > 0 && EndToken(b, blockTokens) < end
    ensures b < BlockCount(end, blockTokens)
  {
    if BlockCount(end, blockTokens) <= b {
      EndTokenIncreases(BlockCount(end, blockTokens), b, blockTokens);
      assert false;
    }
  }

  lemma FollowsPrefix(v: View, h: Hasher, sequence: nat, tokens: seq<nat>, blockTokens: nat, end: nat, n: nat, b: nat)
    requires blockTokens > 0 && IsCut(tokens, blockTokens, end, n) && b <= n
    requires Follows(v, h, sequence, tokens, blockTokens, b)
    ensures Follows(v, h, sequence, tokens[..end], blockTokens, b)
  {
    var prefix := tokens[..end];
    forall c: nat, k: nat | c < b && At(v, k, sequence, EndToken(c, blockTokens))
      ensures Spelled(v, h, sequence, prefix, blockTokens, c)
    {
      SpelledInPrefix(v, h, sequence, tokens, blockTokens, end, n, c);
    }
  }

  // ---- Progress ------------------------------------------------------------

  /** The blocks of a prompt that a probe looks at: whole ones, short of the last token. */
  function ProbedBlocks(n: nat, blockTokens: nat): nat
    requires n > 0 && blockTokens > 0
  {
    BlockOf(n - 1, blockTokens)
  }

  lemma ProbedBlocksAreReusable(n: nat, blockTokens: nat)
    requires n > 0 && blockTokens > 0
    ensures EndToken(ProbedBlocks(n, blockTokens), blockTokens) == ReusableTokens(n, blockTokens) < n
  {
  }

  /** What the sequence holds at the first `barrier` offsets is the prompt's, and it holds the first `n` blocks. */
  ghost predicate Progress(v: View, h: Hasher, sequence: nat, tokens: seq<nat>, blockTokens: nat, barrier: nat, n: nat)
  {
    Follows(v, h, sequence, tokens, blockTokens, barrier) && SpelledUpTo(v, h, sequence, tokens, blockTokens, n)
  }

  /** At block `b` the sequence holds a block that is not the prompt's: of other tokens, or of fewer. */
  ghost predicate Foreign(v: View, h: Hasher, sequence: nat, tokens: seq<nat>, blockTokens: nat, b: nat) {
    (exists k: nat :: At(v, k, sequence, EndToken(b, blockTokens))) && !Spelled(v, h, sequence, tokens, blockTokens, b)
  }

  lemma {:induction false} SpelledAt(v: View, h: Hasher, sequence: nat, tokens: seq<nat>, blockTokens: nat, n: nat,
                                     b: nat)
    requires SpelledUpTo(v, h, sequence, tokens, blockTokens, n) && b < n
    ensures Spelled(v, h, sequence, tokens, blockTokens, b)
  {
    if b < n - 1 {
      SpelledAt(v, h, sequence, tokens, blockTokens, n - 1, b);
    }
  }

  /** A probe matches a whole block exactly when the sequence holds it or some entry offers it. */
  lemma MatchesIff(v: View, h: Hasher, sequence: nat, tokens: seq<nat>, blockTokens: nat, b: nat)
    requires blockTokens > 0 && EndToken(b + 1, blockTokens) <= |tokens|
    ensures Matches(v, h, sequence, tokens, blockTokens, b)
            <==> Spelled(v, h, sequence, tokens, blockTokens, b) || Offered(v, h, tokens, blockTokens, b)
  {
  }

  /** What a probe of the prompt answers: as many leading blocks as match, within what may be reused. */
  ghost predicate Probed(v: View, h: Hasher, sequence: nat, tokens: seq<nat>, blockTokens: nat, m: nat)
    requires blockTokens > 0
  {
    && EndToken(m, blockTokens) <= ReusableTokens(|tokens|, blockTokens)
    && MatchesUpTo(v, h, sequence, tokens, blockTokens, m)
    && (EndToken(m, blockTokens) < ReusableTokens(|tokens|, blockTokens) ==>
        !Matches(v, h, sequence, tokens, blockTokens, m))
  }

  lemma ProbedBlockIsWhole(tokens: seq<nat>, blockTokens: nat, b: nat)
    requires blockTokens > 0 && tokens != [] && b < ProbedBlocks(|tokens|, blockTokens)
    ensures EndToken(b, blockTokens) < EndToken(b + 1, blockTokens) <= ReusableTokens(|tokens|, blockTokens) < |tokens|
  {
    ProbedBlocksAreReusable(|tokens|, blockTokens);
    EndTokenIncreases(b + 1, ProbedBlocks(|tokens|, blockTokens), blockTokens);
  }

  /** A probe sees at least what the sequence holds. */
  lemma ProbeSeesProgress(v: View, h: Hasher, sequence: nat, tokens: seq<nat>, blockTokens: nat, n: nat, m: nat)
    requires blockTokens > 0 && tokens != [] && SpelledUpTo(v, h, sequence, tokens, blockTokens, n)
    requires n <= ProbedBlocks(|tokens|, blockTokens) && Probed(v, h, sequence, tokens, blockTokens, m)
    ensures n <= m
  {
    if m < n {
      ProbedBlockIsWhole(tokens, blockTokens, m);
      SpelledAt(v, h, sequence, tokens, blockTokens, n, m);
      MatchesIff(v, h, sequence, tokens, blockTokens, m);
      assert false;
    }
  }

  lemma {:induction false} MatchedAt(v: View, h: Hasher, sequence: nat, tokens: seq<nat>, blockTokens: nat, n: nat,
                                     b: nat)
    requires MatchesUpTo(v, h, sequence, tokens, blockTokens, n) && b < n
    ensures Matches(v, h, sequence, tokens, blockTokens, b)
  {
    if b < n - 1 {
      MatchedAt(v, h, sequence, tokens, blockTokens, n - 1, b);
    }
  }

  /** A probe stops at a block the sequence does not hold and nobody offers. */
  lemma ProbeStops(v: View, h: Hasher, sequence: nat, tokens: seq<nat>, blockTokens: nat, b: nat, m: nat)
    requires blockTokens > 0 && tokens != [] && b < ProbedBlocks(|tokens|, blockTokens)
    requires !Spelled(v, h, sequence, tokens, blockTokens, b) && !Offered(v, h, tokens, blockTokens, b)
    requires Probed(v, h, sequence, tokens, blockTokens, m)
    ensures m <= b
  {
    if b < m {
      ProbedBlockIsWhole(tokens, blockTokens, b);
      MatchedAt(v, h, sequence, tokens, blockTokens, m, b);
      MatchesIff(v, h, sequence, tokens, blockTokens, b);
      assert false;
    }
  }

  lemma {:induction false} WholeBlocksOf(n: nat, blockTokens: nat)
    requires blockTokens > 0
    ensures BlockOf(EndToken(n, blockTokens), blockTokens) == n
  {
    if n > 0 {
      WholeBlocksOf(n - 1, blockTokens);
    }
  }

  // ---- A step of the sequence itself ---------------------------------------

  /** A chunk of a prompt: where it starts, its length, and the blocks and arena blocks of the step. */
  datatype Chunk = Chunk(offset: nat, count: nat, matched: nat, table: seq<nat>, epoch: nat)

  function EndOf(d: Chunk): nat { d.offset + d.count }

  /** The prompt's next chunk has been admitted: probed, sized and reserved. */
  ghost predicate Admitted(v: View, w: View, h: Hasher, sequence: nat, tokens: seq<nat>, blockTokens: nat,
                           requested: nat, limit: nat, d: Chunk)
    requires blockTokens > 0
  {
    && Probed(v, h, sequence, tokens, blockTokens, d.matched) && d.offset == EndToken(d.matched, blockTokens) < |tokens|
    && d.count == ScheduledTokens(true, requested, limit, blockTokens, |tokens|, d.offset) && EndOf(d) <= |tokens|
    && |d.table| == BlockCount(EndOf(d), blockTokens) && d.epoch == w.epoch
    && Reserving(v.(epoch := w.epoch), w, h, sequence, tokens[..EndOf(d)], blockTokens, true, d.table)
  }

  lemma SpelledSame(v: View, u: View, h: Hasher, sequence: nat, tokens: seq<nat>, blockTokens: nat, b: nat)
    requires u.bindings == v.bindings && u.entries == v.entries && Spelled(v, h, sequence, tokens, blockTokens, b)
    ensures Spelled(u, h, sequence, tokens, blockTokens, b)
  {
    var block := BlockTokens(tokens, blockTokens, b);
    var parent := ChainHash(h, tokens, blockTokens, b);
    var first := EndToken(b, blockTokens);
    var k: nat :|
      At(v, k, sequence, first) && v.bindings[k].entry < |v.entries|
      && Spells(v.entries[v.bindings[k].entry], parent, h.block(block, parent), h.content(block), first, |block|);
    assert At(u, k, sequence, first);
  }

  lemma AnytimeFollows(v: View, h: Hasher, sequence: nat, tokens: seq<nat>, blockTokens: nat, epoch: nat, n: nat)
    requires Follows(v, h, sequence, tokens, blockTokens, n)
    ensures Follows(v.(epoch := epoch), h, sequence, tokens, blockTokens, n)
  {
    var u := v.(epoch := epoch);
    forall b: nat, k: nat | b < n && At(u, k, sequence, EndToken(b, blockTokens))
      ensures Spelled(u, h, sequence, tokens, blockTokens, b)
    {
      assert At(v, k, sequence, EndToken(b, blockTokens));
      SpelledSame(v, u, h, sequence, tokens, blockTokens, b);
    }
  }

  /** A chunk that starts behind `matched` blocks lies past the first `n` of them and ends on a cut. */
  lemma ChunkPastBlock(tokens: seq<nat>, blockTokens: nat, requested: nat, limit: nat, d: Chunk, n: nat)
    requires blockTokens > 0 && n <= d.matched && d.offset == EndToken(d.matched, blockTokens) < |tokens|
    requires d.count == ScheduledTokens(true, requested, limit, blockTokens, |tokens|, d.offset)
    ensures EndToken(n, blockTokens) <= d.offset && d.count > 0
    ensures IsCut(tokens, blockTokens, EndOf(d), BlockCount(EndOf(d), blockTokens))
    ensures n < BlockCount(EndOf(d), blockTokens)
  {
    EndTokenIncreases(n, d.matched, blockTokens);
    var whole := StepIsWholeOrFinal(requested, limit, blockTokens, |tokens|, d.matched);
    BlocksOfWholeBlocks(whole, blockTokens);
    BlockBelow(n, EndOf(d), blockTokens);
  }

  /** Where an admitted chunk lies: at or after what the sequence holds; whole blocks unless it is the last. */
  lemma AdmittedChunk(v: View, w: View, h: Hasher, sequence: nat, tokens: seq<nat>, blockTokens: nat, requested: nat,
                      limit: nat, d: Chunk, n: nat)
    requires blockTokens > 0 && tokens != [] && SpelledUpTo(v, h, sequence, tokens, blockTokens, n)
    requires n <= ProbedBlocks(|tokens|, blockTokens)
    requires Admitted(v, w, h, sequence, tokens, blockTokens, requested, limit, d)
    ensures EndToken(n, blockTokens) <= d.offset && d.count > 0
    ensures IsCut(tokens, blockTokens, EndOf(d), BlockCount(EndOf(d), blockTokens))
    ensures n < BlockCount(EndOf(d), blockTokens)
  {
    ProbeSeesProgress(v, h, sequence, tokens, blockTokens, n, d.matched);
    ChunkPastBlock(tokens, blockTokens, requested, limit, d, n);
  }

  lemma FollowsOn(u: View, w: View, h: Hasher, sequence: nat, tokens: seq<nat>, blockTokens: nat, blocks: nat, n: nat,
                  barrier: nat)
    requires Coherent(u) && Grows(u, w) && GainedBelow(u, w, sequence, EndToken(blocks, blockTokens))
    requires n == Min(barrier, blocks)
    requires Follows(u, h, sequence, tokens, blockTokens, barrier)
    requires SpelledUpTo(w, h, sequence, tokens, blockTokens, n)
    ensures Follows(w, h, sequence, tokens, blockTokens, barrier)
  {
    forall b: nat, k: nat | b < barrier && At(w, k, sequence, EndToken(b, blockTokens))
      ensures Spelled(w, h, sequence, tokens, blockTokens, b)
    {
      if b < n {
        SpelledAt(w, h, sequence, tokens, blockTokens, n, b);
      } else {
        EndTokenIncreases(blocks, b, blockTokens);
        assert At(u, k, sequence, EndToken(b, blockTokens));
        SpelledStays(u, w, h, sequence, tokens, blockTokens, b);
      }
    }
  }

  /** An admitted chunk adds itself to what the sequence holds, as far as that is the prompt's. */
  lemma AdmissionProgresses(v: View, w: View, h: Hasher, sequence: nat, tokens: seq<nat>, blockTokens: nat,
                            requested: nat, limit: nat, d: Chunk, barrier: nat, n: nat)
    requires blockTokens > 0 && tokens != [] && Coherent(v.(epoch := w.epoch))
    requires Progress(v, h, sequence, tokens, blockTokens, barrier, n)
    requires n <= barrier <= ProbedBlocks(|tokens|, blockTokens)
    requires Admitted(v, w, h, sequence, tokens, blockTokens, requested, limit, d)
    ensures Progress(w, h, sequence, tokens, blockTokens, barrier, Min(barrier, BlockCount(EndOf(d), blockTokens)))
  {
    var u, end := v.(epoch := w.epoch), EndOf(d);
    var blocks := BlockCount(end, blockTokens);
    var after := Min(barrier, blocks);
    AdmittedChunk(v, w, h, sequence, tokens, blockTokens, requested, limit, d, n);
    AnytimeFollows(v, h, sequence, tokens, blockTokens, w.epoch, barrier);
    assert Follows(u, h, sequence, tokens, blockTokens, after);
    FollowsPrefix(u, h, sequence, tokens, blockTokens, end, blocks, after);
    OpenReserving(u, w, h, sequence, tokens[..end], blockTokens, true, d.table);
    FollowedIsSpelled(u, w, h, sequence, tokens[..end], blockTokens, after);
    SpelledUpToInPrefix(w, h, sequence, tokens, blockTokens, end, blocks, after);
    FollowsOn(u, w, h, sequence, tokens, blockTokens, blocks, after, barrier);
  }

  /** A sequence has one binding at most at an offset, so a block it holds is the one bound there. */
  lemma SpelledByOwn(v: View, h: Hasher, sequence: nat, tokens: seq<nat>, blockTokens: nat, b: nat, k: nat)
    requires Coherent(v) && At(v, k, sequence, EndToken(b, blockTokens))
    requires Spelled(v, h, sequence, tokens, blockTokens, b)
    ensures v.bindings[k].entry < |v.entries|
    ensures var block := BlockTokens(tokens, blockTokens, b);
      var parent := ChainHash(h, tokens, blockTokens, b);
      Spells(v.entries[v.bindings[k].entry], parent, h.block(block, parent), h.content(block),
             EndToken(b, blockTokens), |block|)
  {
    OpenCoherent(v);
  }

  /** An admission keeps a foreign block: a reservation takes whatever is bound at an offset. */
  lemma AdmissionKeepsForeign(v: View, w: View, h: Hasher, sequence: nat, tokens: seq<nat>, blockTokens: nat,
                              requested: nat, limit: nat, d: Chunk, b: nat)
    requires blockTokens > 0 && Coherent(v.(epoch := w.epoch)) && Coherent(w)
    requires Foreign(v, h, sequence, tokens, blockTokens, b)
    requires Admitted(v, w, h, sequence, tokens, blockTokens, requested, limit, d)
    ensures Foreign(w, h, sequence, tokens, blockTokens, b)
  {
    var u, first := v.(epoch := w.epoch), EndToken(b, blockTokens);
    OpenReserving(u, w, h, sequence, tokens[..EndOf(d)], blockTokens, true, d.table);
    var k: nat :| At(v, k, sequence, first);
    assert At(u, k, sequence, first) && OldBinding(u, w, k);
    assert At(w, k, sequence, first);
    if Spelled(w, h, sequence, tokens, blockTokens, b) {
      UsedBinding(u, k);
      assert BoundEntry(u, w, u.bindings[k].entry);
      SpelledByOwn(w, h, sequence, tokens, blockTokens, b, k);
      assert false;
    }
  }

  /**
   * What an admission leaves at the blocks up to the chunk's end: the prompt's block, exactly unless the sequence
   * held a foreign one there.
   */
  lemma ReservedIsPromptsIff(v: View, w: View, h: Hasher, sequence: nat, tokens: seq<nat>, blockTokens: nat,
                             requested: nat, limit: nat, d: Chunk, b: nat)
    requires blockTokens > 0 && Coherent(v.(epoch := w.epoch)) && Coherent(w)
    requires Admitted(v, w, h, sequence, tokens, blockTokens, requested, limit, d)
    requires b < BlockCount(EndOf(d), blockTokens)
    ensures Spelled(w, h, sequence, tokens, blockTokens, b) <==> !Foreign(v, h, sequence, tokens, blockTokens, b)
  {
    var u, end := v.(epoch := w.epoch), EndOf(d);
    ChunkPastBlock(tokens, blockTokens, requested, limit, d, d.matched);
    OpenReserving(u, w, h, sequence, tokens[..end], blockTokens, true, d.table);
    assert HoldsOrSpells(u, w, h, sequence, tokens[..end], blockTokens, b);
    SpelledInPrefix(w, h, sequence, tokens, blockTokens, end, BlockCount(end, blockTokens), b);
    if Foreign(v, h, sequence, tokens, blockTokens, b) {
      AdmissionKeepsForeign(v, w, h, sequence, tokens, blockTokens, requested, limit, d, b);
    } else if Spelled(v, h, sequence, tokens, blockTokens, b) {
      SpelledSame(v, u, h, sequence, tokens, blockTokens, b);
      SpelledStays(u, w, h, sequence, tokens, blockTokens, b);
    } else if k: nat :| At(u, k, sequence, EndToken(b, blockTokens)) {
      assert At(v, k, sequence, EndToken(b, blockTokens));
      assert false;
    }
  }

  lemma SameMatches(v: View, u: View, h: Hasher, sequence: nat, tokens: seq<nat>, blockTokens: nat, b: nat)
    requires u.entries == v.entries && u.bindings == v.bindings && Matches(v, h, sequence, tokens, blockTokens, b)
    ensures Matches(u, h, sequence, tokens, blockTokens, b)
  {
    var block, parent := BlockTokens(tokens, blockTokens, b), ChainHash(h, tokens, blockTokens, b);
    var own, content, first := h.block(block, parent), h.content(block), EndToken(b, blockTokens);
    if k: nat :|
      At(v, k, sequence, first) && v.bindings[k].entry < |v.entries|
      && Spells(v.entries[v.bindings[k].entry], parent, own, content, first, blockTokens) {
      assert At(u, k, sequence, first);
    } else {
      var i: nat :| Offers(v, i, parent, own, content, first, blockTokens);
      assert Offers(u, i, parent, own, content, first, blockTokens);
    }
  }

  lemma {:induction false} MatchesInPrefix(v: View, u: View, h: Hasher, sequence: nat, tokens: seq<nat>,
                                           blockTokens: nat, end: nat, n: nat, b: nat)
    requires blockTokens > 0 && IsCut(tokens, blockTokens, end, n) && b <= n && u.entries == v.entries
    requires u.bindings == v.bindings
    requires MatchesUpTo(v, h, sequence, tokens, blockTokens, b)
    ensures MatchesUpTo(u, h, sequence, tokens[..end], blockTokens, b)
  {
    if b > 0 {
      MatchesInPrefix(v, u, h, sequence, tokens, blockTokens, end, n, b - 1);
      ChainOfPrefix(h, tokens, blockTokens, end, n, b - 1);
      BlocksOfPrefix(tokens, blockTokens, end, n, b - 1);
      SameMatches(v, u, h, sequence, tokens, blockTokens, b - 1);
    }
  }

  lemma MatchedIsReusable(tokens: seq<nat>, blockTokens: nat, matched: nat, end: nat)
    requires blockTokens > 0 && EndToken(matched, blockTokens) < end <= |tokens|
    ensures EndToken(matched, blockTokens) <= ReusableTokens(end, blockTokens)
  {
    if end > 1 {
      BlockOfIncreases(EndToken(matched, blockTokens), end - 1, blockTokens);
      WholeBlocksOf(matched, blockTokens);
      EndTokenIncreases(matched, BlockOf(end - 1, blockTokens), blockTokens);
    }
  }

  /** The blocks a chunk skips lie in entries that were in the cache before: nothing is left to compute in them. */
  lemma SkippedIsOld(v: View, w: View, h: Hasher, sequence: nat, tokens: seq<nat>, blockTokens: nat, requested: nat,
                     limit: nat, d: Chunk)
    requires blockTokens > 0 && Admitted(v, w, h, sequence, tokens, blockTokens, requested, limit, d)
    ensures OldUpTo(v.(epoch := w.epoch), w, sequence, blockTokens, d.matched)
  {
    var u, end := v.(epoch := w.epoch), EndOf(d);
    ChunkPastBlock(tokens, blockTokens, requested, limit, d, d.matched);
    OpenReserving(u, w, h, sequence, tokens[..end], blockTokens, true, d.table);
    MatchesInPrefix(v, u, h, sequence, tokens, blockTokens, end, BlockCount(end, blockTokens), d.matched);
    MatchedIsReusable(tokens, blockTokens, d.matched, end);
    assert ReusesFound(u, w, h, sequence, tokens[..end], blockTokens, true, |d.table|, d.matched);
  }

  lemma ProbedIsLongest(v: View, h: Hasher, sequence: nat, tokens: seq<nat>, blockTokens: nat, m: nat, n: nat)
    requires blockTokens > 0 && Probed(v, h, sequence, tokens, blockTokens, m) && m < n
    requires EndToken(n, blockTokens) <= ReusableTokens(|tokens|, blockTokens)
    ensures !MatchesUpTo(v, h, sequence, tokens, blockTokens, n)
  {
    EndTokenIncreases(m + 1, n, blockTokens);
    if MatchesUpTo(v, h, sequence, tokens, blockTokens, n) {
      MatchedAt(v, h, sequence, tokens, blockTokens, n, m);
    }
  }

  /** A probe has one answer. */
  lemma ProbedIsUnique(v: View, h: Hasher, sequence: nat, tokens: seq<nat>, blockTokens: nat, m: nat, n: nat)
    requires blockTokens > 0 && Probed(v, h, sequence, tokens, blockTokens, m)
    requires Probed(v, h, sequence, tokens, blockTokens, n)
    ensures m == n
  {
    if m < n {
      ProbedIsLongest(v, h, sequence, tokens, blockTokens, m, n);
    }
    if n < m {
      ProbedIsLongest(v, h, sequence, tokens, blockTokens, n, m);
    }
  }

  // ---- What others do ------------------------------------------------------

  /** The same block of tokens. */
  predicate SameSpelling(x: Entry, y: Entry) {
    && y.valid == x.valid && y.parentHash == x.parentHash && y.blockHash == x.blockHash
    && y.contentHash == x.contentHash
    && y.first == x.first && y.tokens == x.tokens
  }

  /** Binding `k`, if it is the sequence's, is as it was, and so is its block of tokens. */
  ghost predicate LeftAlone(v: View, w: View, sequence: nat, k: nat) {
    && k < |v.bindings| && k < |w.bindings|
    && (w.bindings[k].valid && w.bindings[k].sequence == sequence ==>
        v.bindings[k].valid && v.bindings[k].sequence == sequence)
    && (v.bindings[k].valid && v.bindings[k].sequence == sequence ==>
          && SameBinding(v.bindings[k], w.bindings[k]) && v.bindings[k].entry < |v.entries|
          && v.bindings[k].entry < |w.entries|
          && SameSpelling(v.entries[v.bindings[k].entry], w.entries[v.bindings[k].entry]))
  }

  /** The sequence holds what it held, and no more. */
  ghost predicate Untouched(v: View, w: View, sequence: nat) {
    |w.bindings| == |v.bindings| && forall k :: 0 <= k < |v.bindings| ==> LeftAlone(v, w, sequence, k)
  }

  lemma SpelledUntouched(v: View, w: View, h: Hasher, sequence: nat, tokens: seq<nat>, blockTokens: nat, b: nat)
    requires Untouched(v, w, sequence) && Spelled(v, h, sequence, tokens, blockTokens, b)
    ensures Spelled(w, h, sequence, tokens, blockTokens, b)
  {
    var block := BlockTokens(tokens, blockTokens, b);
    var parent := ChainHash(h, tokens, blockTokens, b);
    var first := EndToken(b, blockTokens);
    var k: nat :|
      At(v, k, sequence, first) && v.bindings[k].entry < |v.entries|
      && Spells(v.entries[v.bindings[k].entry], parent, h.block(block, parent), h.content(block), first, |block|);
    assert LeftAlone(v, w, sequence, k);
    assert At(w, k, sequence, first);
  }

  lemma {:induction false} SpelledUpToUntouched(v: View, w: View, h: Hasher, sequence: nat, tokens: seq<nat>,
                                                blockTokens: nat, n: nat)
    requires Untouched(v, w, sequence) && SpelledUpTo(v, h, sequence, tokens, blockTokens, n)
    ensures SpelledUpTo(w, h, sequence, tokens, blockTokens, n)
  {
    if n > 0 {
      SpelledUpToUntouched(v, w, h, sequence, tokens, blockTokens, n - 1);
      SpelledUntouched(v, w, h, sequence, tokens, blockTokens, n - 1);
    }
  }

  /** Progress is not lost while the sequence is left alone. */
  lemma ProgressUntouched(v: View, w: View, h: Hasher, sequence: nat, tokens: seq<nat>, blockTokens: nat, barrier: nat,
                          n: nat)
    requires Untouched(v, w, sequence) && Progress(v, h, sequence, tokens, blockTokens, barrier, n)
    ensures Progress(w, h, sequence, tokens, blockTokens, barrier, n)
  {
    SpelledUpToUntouched(v, w, h, sequence, tokens, blockTokens, n);
    forall b: nat, k: nat | b < barrier && At(w, k, sequence, EndToken(b, blockTokens))
      ensures Spelled(w, h, sequence, tokens, blockTokens, b)
    {
      assert LeftAlone(v, w, sequence, k);
      assert At(v, k, sequence, EndToken(b, blockTokens));
      SpelledUntouched(v, w, h, sequence, tokens, blockTokens, b);
    }
  }

  /** Nor is a foreign block. */
  lemma ForeignUntouched(v: View, w: View, h: Hasher, sequence: nat, tokens: seq<nat>, blockTokens: nat, b: nat)
    requires Untouched(v, w, sequence) && Foreign(v, h, sequence, tokens, blockTokens, b)
    ensures Foreign(w, h, sequence, tokens, blockTokens, b)
  {
    var first := EndToken(b, blockTokens);
    var k: nat :| At(v, k, sequence, first);
    assert LeftAlone(v, w, sequence, k);
    assert At(w, k, sequence, first);
    if Spelled(w, h, sequence, tokens, blockTokens, b) {
      var block := BlockTokens(tokens, blockTokens, b);
      var parent := ChainHash(h, tokens, blockTokens, b);
      var l: nat :|
        At(w, l, sequence, first) && w.bindings[l].entry < |w.entries|
        && Spells(w.entries[w.bindings[l].entry], parent, h.block(block, parent), h.content(block), first, |block|);
      assert LeftAlone(v, w, sequence, l);
      assert At(v, l, sequence, first);
      assert false;
    }
  }

  /** A reservation or a shared prefix of another sequence, done or taken back. */
  lemma OthersReserve(v: View, w: View, sequence: nat, other: nat, epoch: nat)
    requires Coherent(v) && other != sequence && (Kept(v, w, other, epoch) || Restored(v, w, epoch))
    ensures Untouched(v, w, sequence)
  {
    forall k | 0 <= k < |v.bindings| ensures LeftAlone(v, w, sequence, k) {
      assert OldBinding(v, w, k);
      assert Kept(v, w, other, epoch) ==> NewBinding(v, w, other, epoch, k);
      if v.bindings[k].valid {
        UsedBinding(v, k);
        assert OldEntry(v, w, v.bindings[k].entry);
      }
    }
  }

  /** A commit, of any sequence and epoch. */
  lemma AnyCommit(v: View, w: View, sequence: nat, other: nat, epoch: nat, blockTokens: nat)
    requires Coherent(v) && Committed(v, w, other, epoch, blockTokens)
    ensures Untouched(v, w, sequence)
  {
    forall k | 0 <= k < |v.bindings| ensures LeftAlone(v, w, sequence, k) {
      assert SettlesAt(v, w, other, epoch, |v.bindings|, k);
      if v.bindings[k].valid {
        UsedBinding(v, k);
        assert CommitsAt(v, w, epoch, blockTokens, |v.entries|, v.bindings[k].entry);
      }
    }
  }

  /** A cancelled reservation of another sequence, or whatever epoch it asks to cancel. */
  lemma OthersCancel(v: View, w: View, sequence: nat, other: nat, epoch: nat)
    requires Coherent(v) && other != sequence && Withdrawn(v, w, other, epoch)
    ensures Untouched(v, w, sequence)
  {
    forall k | 0 <= k < |v.bindings| ensures LeftAlone(v, w, sequence, k) {
      assert Released(v, w, other, epoch, |v.bindings|, k);
      if v.bindings[k].valid {
        UsedBinding(v, k);
        assert WithdrawnAt(v, w, other, epoch, v.bindings[k].entry);
        assert v.bindings[k].sequence == sequence ==> BindsBeyond(v, other, epoch, v.bindings[k].entry, k);
      }
    }
  }

  /** Another sequence released. */
  lemma OthersRelease(v: View, w: View, sequence: nat, other: nat)
    requires Coherent(v) && other != sequence && Left(v, w, other)
    ensures Untouched(v, w, sequence)
  {
    forall k | 0 <= k < |v.bindings| ensures LeftAlone(v, w, sequence, k) {
      assert LeavesAt(v, w, other, |v.bindings|, k);
      if v.bindings[k].valid {
        UsedBinding(v, k);
        assert GoneUnlessHeld(v, w, other, v.bindings[k].entry);
        assert v.bindings[k].sequence == sequence ==> BindsElsewhere(v, other, v.bindings[k].entry, k);
      }
    }
  }

  /** Room made for another sequence. */
  lemma OthersGrow(v: View, w: View, sequence: nat, other: nat)
    requires Coherent(v) && other != sequence && OthersKeep(v, w, other) && |w.bindings| == |v.bindings|
    ensures Untouched(v, w, sequence)
  {
    forall k | 0 <= k < |v.bindings| ensures LeftAlone(v, w, sequence, k) {
      assert Undisturbed(v, w, other, k);
    }
  }

  /** A probe, of any sequence. */
  lemma AnyProbe(v: View, w: View, sequence: nat)
    requires Coherent(v) && Ticked(v, w)
    ensures Untouched(v, w, sequence)
  {
    forall k | 0 <= k < |v.bindings| ensures LeftAlone(v, w, sequence, k) {
      if v.bindings[k].valid {
        UsedBinding(v, k);
        assert TickedAt(v, w, v.bindings[k].entry);
      }
    }
  }

  /** One operation that is not an admission of this sequence's prompt. */
  ghost predicate Interferes(v: View, w: View, sequence: nat, other: nat, epoch: nat, blockTokens: nat) {
    || Committed(v, w, sequence, epoch, blockTokens)
    || Ticked(v, w)
    || (other != sequence
        && (|| Kept(v, w, other, epoch) || Restored(v, w, epoch) || Committed(v, w, other, epoch, blockTokens)
            || Withdrawn(v, w, other, epoch)
            || Left(v, w, other) || (OthersKeep(v, w, other) && |w.bindings| == |v.bindings|)))
  }

  lemma InterferenceIsHarmless(v: View, w: View, sequence: nat, other: nat, epoch: nat, blockTokens: nat)
    requires Coherent(v) && Interferes(v, w, sequence, other, epoch, blockTokens)
    ensures Untouched(v, w, sequence)
  {
    if Committed(v, w, sequence, epoch, blockTokens) {
      AnyCommit(v, w, sequence, sequence, epoch, blockTokens);
    } else if Ticked(v, w) {
      AnyProbe(v, w, sequence);
    } else if Kept(v, w, other, epoch) || Restored(v, w, epoch) {
      OthersReserve(v, w, sequence, other, epoch);
    } else if Committed(v, w, other, epoch, blockTokens) {
      AnyCommit(v, w, sequence, other, epoch, blockTokens);
    } else if Withdrawn(v, w, other, epoch) {
      OthersCancel(v, w, sequence, other, epoch);
    } else if Left(v, w, other) {
      OthersRelease(v, w, sequence, other);
    } else {
      OthersGrow(v, w, sequence, other);
    }
  }

  // ---- Runs ----------------------------------------------------------------

  /** What happens to the cache: the prompt's next chunk is admitted, or something else. */
  datatype Event = Admit(requested: nat, chunk: Chunk) | Else(other: nat, epoch: nat)

  datatype Step = Step(event: Event, after: View)

  /** The prompt of one sequence, under one scheduler. */
  datatype Job = Job(h: Hasher, sequence: nat, tokens: seq<nat>, blockTokens: nat, limit: nat)

  ghost predicate StepOk(j: Job, v: View, s: Step)
    requires j.blockTokens > 0
  {
    && Coherent(s.after)
    && match s.event
       case Admit(requested, d) =>
         && Coherent(v.(epoch := s.after.epoch))
         && Admitted(v, s.after, j.h, j.sequence, j.tokens, j.blockTokens, requested, j.limit, d)
       case Else(other, epoch) => Interferes(v, s.after, j.sequence, other, epoch, j.blockTokens)
  }

  /** The state after a run. */
  function After(v: View, run: seq<Step>): View {
    if run == [] then v else run[|run| - 1].after
  }

  /** The chunks admitted in a run. */
  function Chunks(run: seq<Step>): seq<Chunk> {
    if run == [] then []
    else
      var rest, e := Chunks(run[..|run| - 1]), run[|run| - 1].event;
      if e.Admit? then rest + [e.chunk] else rest
  }

  /** Where the last chunk of a list ends. */
  function Reached(chunks: seq<Chunk>): nat {
    if chunks == [] then 0 else EndOf(chunks[|chunks| - 1])
  }

  /** The prompt's last chunk has been admitted. */
  predicate Done(j: Job, run: seq<Step>) {
    Chunks(run) != [] && Reached(Chunks(run)) == |j.tokens|
  }

  /** A run of the cache, in which nothing is admitted once the prompt's last chunk has been. */
  ghost predicate IsRun(j: Job, v: View, run: seq<Step>)
    requires j.blockTokens > 0
  {
    run == []
    || (&& IsRun(j, v, run[..|run| - 1])
        && StepOk(j, After(v, run[..|run| - 1]), run[|run| - 1])
        && (run[|run| - 1].event.Admit? ==> !Done(j, run[..|run| - 1])))
  }

  /** Each chunk starts where the one before it ended, or later; all but the last end on a block boundary. */
  ghost predicate Follow(chunks: seq<Chunk>, blockTokens: nat, end: nat) {
    chunks == []
    || (var d := chunks[|chunks| - 1];
        && Follow(chunks[..|chunks| - 1], blockTokens, end)
        && Reached(chunks[..|chunks| - 1]) <= d.offset && d.count > 0 && EndOf(d) <= end
        && (EndOf(d) < end ==> EndOf(d) == EndToken(BlockCount(EndOf(d), blockTokens), blockTokens)))
  }

  // ---- Every run -----------------------------------------------------------

  /**
   * The first block a probe looks at where the sequence holds a foreign block, if there is one; otherwise the
   * number of blocks a probe looks at.
   */
  ghost predicate IsBarrier(j: Job, v: View, barrier: nat)
    requires j.blockTokens > 0 && j.tokens != []
  {
    && barrier <= ProbedBlocks(|j.tokens|, j.blockTokens)
    && Follows(v, j.h, j.sequence, j.tokens, j.blockTokens, barrier)
    && (barrier < ProbedBlocks(|j.tokens|, j.blockTokens) ==>
        Foreign(v, j.h, j.sequence, j.tokens, j.blockTokens, barrier))
  }

  /** At no admission of the run does an entry offer block `b` of the prompt. */
  ghost predicate NeverOffered(j: Job, v: View, run: seq<Step>, b: nat) {
    run == []
    || (&& NeverOffered(j, v, run[..|run| - 1], b)
        && (run[|run| - 1].event.Admit? ==> !Offered(After(v, run[..|run| - 1]), j.h, j.tokens, j.blockTokens, b)))
  }

  /** The last chunk lies in the prompt, and ends on a block boundary or with the prompt. */
  ghost predicate Placed(j: Job, chunks: seq<Chunk>)
    requires j.blockTokens > 0
  {
    chunks != [] ==>
      && chunks[|chunks| - 1].count > 0
      && IsCut(j.tokens, j.blockTokens, Reached(chunks), BlockCount(Reached(chunks), j.blockTokens))
  }

  /** Where a run stands: the sequence holds the prompt's blocks up to the last chunk's end, or to the barrier. */
  ghost predicate Stands(j: Job, w: View, chunks: seq<Chunk>, barrier: nat)
    requires j.blockTokens > 0 && j.tokens != []
  {
    && Coherent(w) && IsBarrier(j, w, barrier) && Placed(j, chunks)
    && SpelledUpTo(w, j.h, j.sequence, j.tokens, j.blockTokens,
                   Min(barrier, BlockCount(Reached(chunks), j.blockTokens)))
  }

  lemma StepStands(j: Job, u: View, s: Step, chunks: seq<Chunk>, barrier: nat)
    requires j.blockTokens > 0 && j.tokens != [] && Stands(j, u, chunks, barrier) && StepOk(j, u, s)
    ensures Stands(j, s.after, if s.event.Admit? then chunks + [s.event.chunk] else chunks, barrier)
  {
    var n := Min(barrier, BlockCount(Reached(chunks), j.blockTokens));
    match s.event {
      case Admit(requested, d) =>
        AdmittedChunk(u, s.after, j.h, j.sequence, j.tokens, j.blockTokens, requested, j.limit, d, n);
        AdmissionProgresses(u, s.after, j.h, j.sequence, j.tokens, j.blockTokens, requested, j.limit, d, barrier, n);
        if barrier < ProbedBlocks(|j.tokens|, j.blockTokens) {
          AdmissionKeepsForeign(u, s.after, j.h, j.sequence, j.tokens, j.blockTokens, requested, j.limit, d, barrier);
        }
      case Else(other, epoch) =>
        InterferenceIsHarmless(u, s.after, j.sequence, other, epoch, j.blockTokens);
        ProgressUntouched(u, s.after, j.h, j.sequence, j.tokens, j.blockTokens, barrier, n);
        if barrier < ProbedBlocks(|j.tokens|, j.blockTokens) {
          ForeignUntouched(u, s.after, j.h, j.sequence, j.tokens, j.blockTokens, barrier);
        }
    }
  }

  lemma {:induction false} RunStands(j: Job, v: View, run: seq<Step>, barrier: nat)
    requires j.blockTokens > 0 && j.tokens != [] && Coherent(v) && IsBarrier(j, v, barrier) && IsRun(j, v, run)
    ensures Stands(j, After(v, run), Chunks(run), barrier)
  {
    if run == [] {
      assert SpelledUpTo(v, j.h, j.sequence, j.tokens, j.blockTokens, 0);
    } else {
      RunStands(j, v, run[..|run| - 1], barrier);
      StepStands(j, After(v, run[..|run| - 1]), run[|run| - 1], Chunks(run[..|run| - 1]), barrier);
    }
  }

  /** Of the chunks, all but the last end at or before `bound`. */
  ghost predicate AllButLastEndBy(chunks: seq<Chunk>, bound: nat) {
    forall i :: 0 <= i < |chunks| - 1 ==> EndOf(chunks[i]) <= bound
  }

  lemma EndsBelow(a: nat, b: nat, blockTokens: nat)
    requires blockTokens > 0 && EndToken(a, blockTokens) <= EndToken(b, blockTokens)
    ensures a <= b
  {
    if b < a {
      EndTokenIncreases(b + 1, a, blockTokens);
    }
  }

  /** A block boundary inside the prompt and past the barrier: the barrier is a foreign block. */
  lemma ReachedIsProbed(j: Job, blocks: nat, barrier: nat)
    requires j.blockTokens > 0 && EndToken(barrier, j.blockTokens) < EndToken(blocks, j.blockTokens) < |j.tokens|
    ensures barrier < ProbedBlocks(|j.tokens|, j.blockTokens)
  {
    WholeBlocksOf(blocks, j.blockTokens);
    BlockOfIncreases(EndToken(blocks, j.blockTokens), |j.tokens| - 1, j.blockTokens);
    if blocks <= barrier {
      EndTokenIncreases(blocks, barrier, j.blockTokens);
    }
  }

  /**
   * The next chunk starts at or after the end of the one before exactly when that one ends at or before the barrier.
   */
  lemma NextChunkFollowsIff(j: Job, u: View, s: Step, chunks: seq<Chunk>, barrier: nat)
    requires j.blockTokens > 0 && j.tokens != [] && Stands(j, u, chunks, barrier) && StepOk(j, u, s)
    requires s.event.Admit? && chunks != [] && Reached(chunks) < |j.tokens|
    requires barrier < ProbedBlocks(|j.tokens|, j.blockTokens) ==> !Offered(u, j.h, j.tokens, j.blockTokens, barrier)
    ensures Reached(chunks) <= s.event.chunk.offset <==> Reached(chunks) <= EndToken(barrier, j.blockTokens)
  {
    var d, blocks := s.event.chunk, BlockCount(Reached(chunks), j.blockTokens);
    AdmittedChunk(u, s.after, j.h, j.sequence, j.tokens, j.blockTokens, s.event.requested, j.limit, d,
                  Min(barrier, blocks));
    if Reached(chunks) <= EndToken(barrier, j.blockTokens) {
      EndsBelow(blocks, barrier, j.blockTokens);
    } else {
      ReachedIsProbed(j, blocks, barrier);
      ProbeStops(u, j.h, j.sequence, j.tokens, j.blockTokens, barrier, d.matched);
      EndTokenIncreases(d.matched, barrier, j.blockTokens);
    }
  }

  lemma EndByOneMore(chunks: seq<Chunk>, d: Chunk, bound: nat)
    ensures AllButLastEndBy(chunks + [d], bound) <==>
      AllButLastEndBy(chunks, bound) && (chunks == [] || Reached(chunks) <= bound)
  {
    var longer := chunks + [d];
    assert forall i :: 0 <= i < |chunks| ==> longer[i] == chunks[i];
    if AllButLastEndBy(longer, bound) && chunks != [] {
      assert EndOf(longer[|chunks| - 1]) <= bound;
    }
  }

  lemma FollowOneMore(chunks: seq<Chunk>, d: Chunk, blockTokens: nat, end: nat)
    requires d.count > 0 && EndOf(d) <= end
    requires EndOf(d) < end ==> EndOf(d) == EndToken(BlockCount(EndOf(d), blockTokens), blockTokens)
    ensures Follow(chunks + [d], blockTokens, end) <==> Follow(chunks, blockTokens, end) && Reached(chunks) <= d.offset
  {
    assert (chunks + [d])[..|chunks|] == chunks;
  }

  lemma OneMoreFollowsIff(j: Job, chunks: seq<Chunk>, d: Chunk, bound: nat)
    requires j.blockTokens > 0 && Placed(j, chunks + [d])
    requires Follow(chunks, j.blockTokens, |j.tokens|) <==> AllButLastEndBy(chunks, bound)
    requires chunks != [] ==> (Reached(chunks) <= d.offset <==> Reached(chunks) <= bound)
    ensures Follow(chunks + [d], j.blockTokens, |j.tokens|) <==> AllButLastEndBy(chunks + [d], bound)
  {
    EndByOneMore(chunks, d, bound);
    FollowOneMore(chunks, d, j.blockTokens, |j.tokens|);
  }

  lemma AdmissionFollowsIff(j: Job, u: View, s: Step, chunks: seq<Chunk>, barrier: nat)
    requires j.blockTokens > 0 && j.tokens != [] && Stands(j, u, chunks, barrier) && StepOk(j, u, s)
    requires s.event.Admit? && (chunks != [] ==> Reached(chunks) != |j.tokens|)
    requires barrier < ProbedBlocks(|j.tokens|, j.blockTokens) ==> !Offered(u, j.h, j.tokens, j.blockTokens, barrier)
    requires Follow(chunks, j.blockTokens, |j.tokens|) <==> AllButLastEndBy(chunks, EndToken(barrier, j.blockTokens))
    ensures var longer := chunks + [s.event.chunk];
      Follow(longer, j.blockTokens, |j.tokens|) <==> AllButLastEndBy(longer, EndToken(barrier, j.blockTokens))
  {
    StepStands(j, u, s, chunks, barrier);
    if chunks != [] {
      NextChunkFollowsIff(j, u, s, chunks, barrier);
    }
    OneMoreFollowsIff(j, chunks, s.event.chunk, EndToken(barrier, j.blockTokens));
  }

  /**
   * Every run, whatever other sequences do: chunks follow one another exactly when none but the last ends past the
   * first foreign block, as long as nobody offers the prompt's block there.
   */
  lemma {:induction false} ChunksFollowIff(j: Job, v: View, run: seq<Step>, barrier: nat)
    requires j.blockTokens > 0 && j.tokens != [] && Coherent(v) && IsBarrier(j, v, barrier) && IsRun(j, v, run)
    requires barrier < ProbedBlocks(|j.tokens|, j.blockTokens) ==> NeverOffered(j, v, run, barrier)
    ensures Follow(Chunks(run), j.blockTokens, |j.tokens|) <==>
      AllButLastEndBy(Chunks(run), EndToken(barrier, j.blockTokens))
  {
    if run != [] {
      var before, s := run[..|run| - 1], run[|run| - 1];
      ChunksFollowIff(j, v, before, barrier);
      if s.event.Admit? {
        RunStands(j, v, before, barrier);
        AdmissionFollowsIff(j, After(v, before), s, Chunks(before), barrier);
      }
    }
  }

  // ---- Without a foreign block ---------------------------------------------

  lemma CutIsProbed(j: Job, end: nat)
    requires j.blockTokens > 0 && end < |j.tokens|
    requires IsCut(j.tokens, j.blockTokens, end, BlockCount(end, j.blockTokens))
    ensures end <= ReusableTokens(|j.tokens|, j.blockTokens)
  {
    WholeBlocksOf(BlockCount(end, j.blockTokens), j.blockTokens);
    BlockOfIncreases(end, |j.tokens| - 1, j.blockTokens);
    EndTokenIncreases(BlockCount(end, j.blockTokens), ProbedBlocks(|j.tokens|, j.blockTokens), j.blockTokens);
    ProbedBlocksAreReusable(|j.tokens|, j.blockTokens);
  }

  /** Chunks that are not the last of the prompt end where a probe still looks. */
  lemma {:induction false} UnfinishedEndsProbed(j: Job, v: View, run: seq<Step>, i: nat)
    requires j.blockTokens > 0 && j.tokens != [] && Coherent(v) && IsRun(j, v, run) && i < |Chunks(run)|
    requires IsBarrier(j, v, ProbedBlocks(|j.tokens|, j.blockTokens)) && (i < |Chunks(run)| - 1 || !Done(j, run))
    ensures EndOf(Chunks(run)[i]) <= ReusableTokens(|j.tokens|, j.blockTokens)
  {
    var before, s := run[..|run| - 1], run[|run| - 1];
    if s.event.Else? || i < |Chunks(before)| {
      UnfinishedEndsProbed(j, v, before, i);
    } else {
      RunStands(j, v, run, ProbedBlocks(|j.tokens|, j.blockTokens));
      CutIsProbed(j, Reached(Chunks(run)));
    }
  }

  lemma FollowEndsWhole(chunks: seq<Chunk>, blockTokens: nat, end: nat)
    requires blockTokens > 0 && Follow(chunks, blockTokens, end) && chunks != [] && Reached(chunks) < end
    ensures Reached(chunks) == EndToken(BlockCount(Reached(chunks), blockTokens), blockTokens)
  {
  }

  lemma {:induction false} ChunksCount(chunks: seq<Chunk>, blockTokens: nat, end: nat)
    requires blockTokens > 0 && Follow(chunks, blockTokens, end)
    ensures Reached(chunks) <= end
    ensures (Reached(chunks) < end || chunks == [] ==> |chunks| <= BlockCount(Reached(chunks), blockTokens))
    ensures |chunks| <= BlockCount(end, blockTokens)
  {
    if chunks != [] {
      var rest, d := chunks[..|chunks| - 1], chunks[|chunks| - 1];
      ChunksCount(rest, blockTokens, end);
      if Reached(rest) == end {
        assert false;
      }
      if rest != [] {
        FollowEndsWhole(rest, blockTokens, end);
      }
      BlockBelow(BlockCount(Reached(rest), blockTokens), EndOf(d), blockTokens);
      BlockCountIncreases(EndOf(d), end, blockTokens);
    }
  }

  /**
   * Every run of a sequence that holds no foreign block where a probe looks: chunks follow one another, and there
   * are no more of them than the prompt has blocks, so the last chunk is reached in finitely many admissions.
   */
  lemma RunProgresses(j: Job, v: View, run: seq<Step>)
    requires j.blockTokens > 0 && j.tokens != [] && Coherent(v) && IsRun(j, v, run)
    requires Follows(v, j.h, j.sequence, j.tokens, j.blockTokens, ProbedBlocks(|j.tokens|, j.blockTokens))
    ensures Follow(Chunks(run), j.blockTokens, |j.tokens|)
    ensures |Chunks(run)| <= BlockCount(|j.tokens|, j.blockTokens)
    ensures |Chunks(run)| == BlockCount(|j.tokens|, j.blockTokens) ==> Done(j, run)
  {
    var barrier := ProbedBlocks(|j.tokens|, j.blockTokens);
    ProbedBlocksAreReusable(|j.tokens|, j.blockTokens);
    forall i | 0 <= i < |Chunks(run)| - 1 ensures EndOf(Chunks(run)[i]) <= EndToken(barrier, j.blockTokens) {
      UnfinishedEndsProbed(j, v, run, i);
    }
    ChunksFollowIff(j, v, run, barrier);
    ChunksCount(Chunks(run), j.blockTokens, |j.tokens|);
    if |Chunks(run)| == BlockCount(|j.tokens|, j.blockTokens) && !Done(j, run) {
      UnfinishedEndsProbed(j, v, run, |Chunks(run)| - 1);
      BlockCountIncreases(Reached(Chunks(run)), EndToken(barrier, j.blockTokens), j.blockTokens);
      BlocksOfWholeBlocks(barrier, j.blockTokens);
      BlockBelow(barrier, |j.tokens|, j.blockTokens);
      assert false;
    }
  }

  /** No token is scheduled twice. */
  lemma {:induction false} ChunksAreDisjoint(chunks: seq<Chunk>, blockTokens: nat, end: nat, a: nat, b: nat)
    requires Follow(chunks, blockTokens, end) && a < b < |chunks|
    ensures EndOf(chunks[a]) <= chunks[b].offset
    decreases |chunks|
  {
    var rest := chunks[..|chunks| - 1];
    if b < |rest| {
      ChunksAreDisjoint(rest, blockTokens, end, a, b);
    } else if a < |rest| - 1 {
      ChunksAreDisjoint(rest, blockTokens, end, a, |rest| - 1);
    }
  }

  // ---- With a foreign block ------------------------------------------------

  /** No chunk ever starts past a foreign block that nobody offers. */
  lemma {:induction false} ChunksStartAtForeign(j: Job, v: View, run: seq<Step>, b: nat)
    requires j.blockTokens > 0 && j.tokens != [] && Coherent(v) && IsRun(j, v, run) && NeverOffered(j, v, run, b)
    requires b < ProbedBlocks(|j.tokens|, j.blockTokens) && Foreign(v, j.h, j.sequence, j.tokens, j.blockTokens, b)
    ensures Coherent(After(v, run)) && Foreign(After(v, run), j.h, j.sequence, j.tokens, j.blockTokens, b)
    ensures forall i :: 0 <= i < |Chunks(run)| ==> Chunks(run)[i].offset <= EndToken(b, j.blockTokens)
  {
    if run != [] {
      var before, s := run[..|run| - 1], run[|run| - 1];
      var u := After(v, before);
      ChunksStartAtForeign(j, v, before, b);
      match s.event {
        case Admit(requested, d) =>
          ProbeStops(u, j.h, j.sequence, j.tokens, j.blockTokens, b, d.matched);
          EndTokenIncreases(d.matched, b, j.blockTokens);
          AdmissionKeepsForeign(u, s.after, j.h, j.sequence, j.tokens, j.blockTokens, requested, j.limit, d, b);
        case Else(other, epoch) =>
          InterferenceIsHarmless(u, s.after, j.sequence, other, epoch, j.blockTokens);
          ForeignUntouched(u, s.after, j.h, j.sequence, j.tokens, j.blockTokens, b);
      }
    }
  }

  /** Two chunks that both end past a foreign block nobody offers overlap: its tokens are scheduled twice. */
  lemma ChunksPastForeignOverlap(j: Job, v: View, run: seq<Step>, b: nat, x: nat, y: nat)
    requires j.blockTokens > 0 && j.tokens != [] && Coherent(v) && IsRun(j, v, run) && NeverOffered(j, v, run, b)
    requires b < ProbedBlocks(|j.tokens|, j.blockTokens) && Foreign(v, j.h, j.sequence, j.tokens, j.blockTokens, b)
    requires x < y < |Chunks(run)| && EndOf(Chunks(run)[x]) > EndToken(b, j.blockTokens)
    ensures Chunks(run)[y].offset < EndOf(Chunks(run)[x])
  {
    ChunksStartAtForeign(j, v, run, b);
  }

  lemma ScheduledIsLimited(requested: nat, limit: nat, blockTokens: nat, prompt: nat, computed: nat)
    requires blockTokens > 0 && computed <= prompt && prompt - computed > StepLimit(0, limit, blockTokens)
    ensures ScheduledTokens(true, requested, limit, blockTokens, prompt, computed) < prompt - computed
  {
    var most := StepLimit(requested, limit, blockTokens);
    RoundDownIsWhole(most, blockTokens);
  }

  /** If a step cannot reach from the foreign block to the end, the prompt never finishes. */
  lemma {:induction false} ForeignBlockStarves(j: Job, v: View, run: seq<Step>, b: nat)
    requires j.blockTokens > 0 && j.tokens != [] && Coherent(v) && IsRun(j, v, run) && NeverOffered(j, v, run, b)
    requires b < ProbedBlocks(|j.tokens|, j.blockTokens) && Foreign(v, j.h, j.sequence, j.tokens, j.blockTokens, b)
    requires |j.tokens| - EndToken(b, j.blockTokens) > StepLimit(0, j.limit, j.blockTokens)
    ensures !Done(j, run)
  {
    if run != [] {
      ForeignBlockStarves(j, v, run[..|run| - 1], b);
      ChunksStartAtForeign(j, v, run, b);
      if run[|run| - 1].event.Admit? {
        var d := run[|run| - 1].event.chunk;
        assert Chunks(run)[|Chunks(run)| - 1] == d;
        ScheduledIsLimited(run[|run| - 1].event.requested, j.limit, j.blockTokens, |j.tokens|, d.offset);
      }
    }
  }
}
