/** Prompts in the prefix cache: the hash chain of a prompt's blocks, and what a sequence holds of it. */
module CachePrompts {
  import opened Blocks
  import opened CacheView
  import opened CacheTransactions

  /** The hash functions of blocks; what they compute does not matter here. */
  datatype Hasher = Hasher(block: (seq<nat>, nat) -> nat, content: seq<nat> -> nat, mix: (nat, nat) -> nat)

  const EMPTY_PARENT := 1469598103934665603

  /** The tokens of block `b` of a prompt; the last block may be partial. */
  function BlockTokens(tokens: seq<nat>, blockTokens: nat, b: nat): seq<nat> {
    var first := EndToken(b, blockTokens);
    if first >= |tokens| then []
    else if first + blockTokens <= |tokens| then tokens[first..first + blockTokens]
    else tokens[first..]
  }

  /** The hash of everything before block `b`. */
  function ChainHash(h: Hasher, tokens: seq<nat>, blockTokens: nat, b: nat): nat {
    if b == 0 then EMPTY_PARENT
    else h.block(BlockTokens(tokens, blockTokens, b - 1), ChainHash(h, tokens, blockTokens, b - 1))
  }

  /** Tokens of a prompt that may come from the cache: whole blocks, short of the last token. */
  function ReusableTokens(n: nat, blockTokens: nat): nat
    requires blockTokens > 0
  {
    if n <= 1 then 0 else EndToken(BlockOf(n - 1, blockTokens), blockTokens)
  }

  lemma BlockIsInside(n: nat, blockTokens: nat, b: nat)
    requires blockTokens > 0 && b < BlockCount(n, blockTokens)
    ensures EndToken(b, blockTokens) < n
  {
    EndTokenIncreases(b, BlockCount(n, blockTokens) - 1, blockTokens);
  }

  /** An entry holds the block of tokens with these hashes. */
  ghost predicate Spells(e: Entry, parentHash: nat, blockHash: nat, contentHash: nat, first: nat, tokens: nat) {
    && e.valid && e.parentHash == parentHash && e.blockHash == blockHash && e.contentHash == contentHash
    && e.first == first && e.tokens == tokens
  }

  /** A sequence holds a block with these hashes at an offset. */
  ghost predicate HasSpelled(v: View, sequence: nat, parentHash: nat, blockHash: nat, contentHash: nat, first: nat,
                             tokens: nat)
  {
    exists k: nat ::
      At(v, k, sequence, first) && v.bindings[k].entry < |v.entries|
      && Spells(v.entries[v.bindings[k].entry], parentHash, blockHash, contentHash, first, tokens)
  }

  /** A sequence holds block `b` of a prompt, under the prompt's hashes. */
  ghost predicate Spelled(v: View, h: Hasher, sequence: nat, tokens: seq<nat>, blockTokens: nat, b: nat) {
    var block := BlockTokens(tokens, blockTokens, b);
    var parent := ChainHash(h, tokens, blockTokens, b);
    HasSpelled(v, sequence, parent, h.block(block, parent), h.content(block), EndToken(b, blockTokens), |block|)
  }

  /** A sequence holds the first `n` blocks of a prompt. */
  ghost predicate SpelledUpTo(v: View, h: Hasher, sequence: nat, tokens: seq<nat>, blockTokens: nat, n: nat) {
    n == 0
    || (&& SpelledUpTo(v, h, sequence, tokens, blockTokens, n - 1)
        && Spelled(v, h, sequence, tokens, blockTokens, n - 1))
  }

  /** Whatever a sequence holds at the offsets of a prompt's first `n` blocks is the prompt's. */
  ghost predicate Follows(v: View, h: Hasher, sequence: nat, tokens: seq<nat>, blockTokens: nat, n: nat) {
    forall b: nat, k: nat :: b < n && At(v, k, sequence, EndToken(b, blockTokens)) ==>
      Spelled(v, h, sequence, tokens, blockTokens, b)
  }

  lemma HasSpelledStays(v: View, w: View, sequence: nat, parentHash: nat, blockHash: nat, contentHash: nat, first: nat,
                        tokens: nat)
    requires Coherent(v) && Grows(v, w) && HasSpelled(v, sequence, parentHash, blockHash, contentHash, first, tokens)
    ensures HasSpelled(w, sequence, parentHash, blockHash, contentHash, first, tokens)
  {
    var k: nat :|
      At(v, k, sequence, first) && v.bindings[k].entry < |v.entries|
      && Spells(v.entries[v.bindings[k].entry], parentHash, blockHash, contentHash, first, tokens);
    UsedBinding(v, k);
    assert OldBinding(v, w, k) && BoundEntry(v, w, v.bindings[k].entry);
    assert At(w, k, sequence, first);
  }

  lemma SpelledStays(v: View, w: View, h: Hasher, sequence: nat, tokens: seq<nat>, blockTokens: nat, b: nat)
    requires Coherent(v) && Grows(v, w) && Spelled(v, h, sequence, tokens, blockTokens, b)
    ensures Spelled(w, h, sequence, tokens, blockTokens, b)
  {
    var block := BlockTokens(tokens, blockTokens, b);
    var parent := ChainHash(h, tokens, blockTokens, b);
    HasSpelledStays(v, w, sequence, parent, h.block(block, parent), h.content(block), EndToken(b, blockTokens),
                    |block|);
  }

  lemma {:induction false} SpelledUpToStays(v: View, w: View, h: Hasher, sequence: nat, tokens: seq<nat>,
                                            blockTokens: nat, n: nat)
    requires Coherent(v) && Grows(v, w) && SpelledUpTo(v, h, sequence, tokens, blockTokens, n)
    ensures SpelledUpTo(w, h, sequence, tokens, blockTokens, n)
  {
    if n > 0 {
      SpelledUpToStays(v, w, h, sequence, tokens, blockTokens, n - 1);
      SpelledStays(v, w, h, sequence, tokens, blockTokens, n - 1);
    }
  }

  /** A sequence holds the blocks of `list` in order. */
  ghost predicate HasAll(v: View, sequence: nat, blockTokens: nat, list: seq<nat>) {
    list == []
    || (&& HasAll(v, sequence, blockTokens, list[..|list| - 1])
        && Has(v, sequence, EndToken(|list| - 1, blockTokens), list[|list| - 1]))
  }

  lemma {:induction false} HasAllStays(v: View, w: View, sequence: nat, blockTokens: nat, list: seq<nat>)
    requires Grows(v, w) && HasAll(v, sequence, blockTokens, list)
    ensures HasAll(w, sequence, blockTokens, list)
  {
    if list != [] {
      HasAllStays(v, w, sequence, blockTokens, list[..|list| - 1]);
      HasStays(v, w, sequence, EndToken(|list| - 1, blockTokens), list[|list| - 1]);
    }
  }

  // ---- What a sequence gains -----------------------------------------------

  /** The sequence has gained nothing but at `first`. */
  ghost predicate OnlyAt(v: View, w: View, sequence: nat, first: nat) {
    forall k: nat, f: nat :: At(w, k, sequence, f) && f != first ==> At(v, k, sequence, f)
  }

  lemma SameBindingsOnlyAt(u: View, v: View, w: View, sequence: nat, first: nat)
    requires OnlyAt(u, v, sequence, first) && w.bindings == v.bindings
    ensures OnlyAt(u, w, sequence, first)
  {
    forall k: nat, f: nat | At(w, k, sequence, f) && f != first ensures At(u, k, sequence, f) {
      assert At(v, k, sequence, f);
    }
  }

  lemma OnlyAtChain(u: View, v: View, w: View, sequence: nat, first: nat)
    requires OnlyAt(u, v, sequence, first) && OnlyAt(v, w, sequence, first)
    ensures OnlyAt(u, w, sequence, first)
  {
    forall k: nat, f: nat | At(w, k, sequence, f) && f != first ensures At(u, k, sequence, f) {
      assert At(v, k, sequence, f);
    }
  }

  lemma NothingGained(v: View, w: View, sequence: nat, first: nat)
    requires w.bindings == v.bindings
    ensures OnlyAt(v, w, sequence, first)
  {
    forall k: nat, f: nat | At(w, k, sequence, f) && f != first ensures At(v, k, sequence, f) {
    }
  }

  /** The sequence has gained nothing at or past `bound`. */
  ghost predicate GainedBelow(v: View, w: View, sequence: nat, bound: nat) {
    forall k: nat, f: nat :: At(w, k, sequence, f) && f >= bound ==> At(v, k, sequence, f)
  }

  lemma NothingGainedAtAll(v: View, w: View, sequence: nat)
    requires w.bindings == v.bindings
    ensures GainedBelow(v, w, sequence, 0)
  {
    forall k: nat, f: nat | At(w, k, sequence, f) ensures At(v, k, sequence, f) {
    }
  }

  lemma GainedOneMore(u: View, v: View, w: View, sequence: nat, first: nat, bound: nat)
    requires GainedBelow(u, v, sequence, first) && OnlyAt(v, w, sequence, first) && first < bound
    ensures GainedBelow(u, w, sequence, bound)
  {
    forall k: nat, f: nat | At(w, k, sequence, f) && f >= bound ensures At(u, k, sequence, f) {
      assert At(v, k, sequence, f);
    }
  }

  // ---- Blocks to be found in the cache -------------------------------------

  /** Any sequence may share the entry. */
  predicate IsReusable(e: Entry, blockTokens: nat) {
    e.valid && e.reusable && !e.pending && e.tokens == blockTokens
  }

  /** Entry `i` is a reusable block with these hashes. */
  ghost predicate Offers(v: View, i: nat, parentHash: nat, blockHash: nat, contentHash: nat, first: nat,
                         blockTokens: nat)
  {
    i < |v.entries| && IsReusable(v.entries[i], blockTokens)
    && Spells(v.entries[i], parentHash, blockHash, contentHash, first, blockTokens)
  }

  ghost predicate OfferedBy(v: View, parentHash: nat, blockHash: nat, contentHash: nat, first: nat, blockTokens: nat) {
    exists i: nat :: Offers(v, i, parentHash, blockHash, contentHash, first, blockTokens)
  }

  /** The cache has a block with these hashes for the sequence: its own, or one to share. */
  ghost predicate Available(v: View, sequence: nat, parentHash: nat, blockHash: nat, contentHash: nat, first: nat,
                            blockTokens: nat)
  {
    || HasSpelled(v, sequence, parentHash, blockHash, contentHash, first, blockTokens)
    || exists i: nat :: Offers(v, i, parentHash, blockHash, contentHash, first, blockTokens)
  }

  /** Block `b` of the prompt need not be computed. */
  ghost predicate Matches(v: View, h: Hasher, sequence: nat, tokens: seq<nat>, blockTokens: nat, b: nat) {
    var block := BlockTokens(tokens, blockTokens, b);
    var parent := ChainHash(h, tokens, blockTokens, b);
    Available(v, sequence, parent, h.block(block, parent), h.content(block), EndToken(b, blockTokens), blockTokens)
  }

  ghost predicate MatchesUpTo(v: View, h: Hasher, sequence: nat, tokens: seq<nat>, blockTokens: nat, n: nat) {
    n == 0
    || (&& MatchesUpTo(v, h, sequence, tokens, blockTokens, n - 1)
        && Matches(v, h, sequence, tokens, blockTokens, n - 1))
  }

  /** Some entry offers block `b` of the prompt to any sequence. */
  ghost predicate Offered(v: View, h: Hasher, tokens: seq<nat>, blockTokens: nat, b: nat) {
    var block := BlockTokens(tokens, blockTokens, b);
    var parent := ChainHash(h, tokens, blockTokens, b);
    exists i: nat ::
      Offers(v, i, parent, h.block(block, parent), h.content(block), EndToken(b, blockTokens), blockTokens)
  }

  /** No entry has been taken over. */
  ghost predicate Untaken(u: View, w: View) {
    |w.entries| == |u.entries| && forall i :: 0 <= i < |u.entries| ==> HeldEntry(u.entries[i], w.entries[i])
  }

  lemma UntakenChain(u: View, v: View, w: View)
    requires Untaken(u, v) && Untaken(v, w)
    ensures Untaken(u, w)
  {
    forall i | 0 <= i < |u.entries| ensures HeldEntry(u.entries[i], w.entries[i]) {
      assert HeldEntry(u.entries[i], v.entries[i]) && HeldEntry(v.entries[i], w.entries[i]);
    }
  }

  ghost predicate IsOld(u: View, w: View, i: nat) {
    i < |u.entries| && i < |w.entries| && u.entries[i].valid && HeldEntry(u.entries[i], w.entries[i])
  }

  /** The sequence holds, at an offset, an entry that was there before. */
  ghost predicate HoldsOld(u: View, w: View, sequence: nat, first: nat) {
    exists k: nat :: At(w, k, sequence, first) && IsOld(u, w, w.bindings[k].entry)
  }

  /** The first `n` blocks of the sequence lie in entries that were there before. */
  ghost predicate OldUpTo(u: View, w: View, sequence: nat, blockTokens: nat, n: nat) {
    n == 0 || (OldUpTo(u, w, sequence, blockTokens, n - 1) && HoldsOld(u, w, sequence, EndToken(n - 1, blockTokens)))
  }

  lemma {:induction false} OldUpToStays(u: View, m: View, w: View, sequence: nat, blockTokens: nat, n: nat)
    requires Coherent(m) && Grows(m, w) && OldUpTo(u, m, sequence, blockTokens, n)
    ensures OldUpTo(u, w, sequence, blockTokens, n)
  {
    if n > 0 {
      OldUpToStays(u, m, w, sequence, blockTokens, n - 1);
      var k: nat :| At(m, k, sequence, EndToken(n - 1, blockTokens)) && IsOld(u, m, m.bindings[k].entry);
      UsedBinding(m, k);
      assert OldBinding(m, w, k) && BoundEntry(m, w, m.bindings[k].entry);
      assert At(w, k, sequence, EndToken(n - 1, blockTokens)) && IsOld(u, w, w.bindings[k].entry);
    }
  }

  // ---- Reserving a prompt --------------------------------------------------

  /** If sharing is allowed and the first `n` blocks are to be found, they are not made anew. */
  ghost predicate ReusesFound(u: View, w: View, h: Hasher, sequence: nat, tokens: seq<nat>, blockTokens: nat,
                              cross: bool, b: nat, n: nat)
  {
    (&& blockTokens > 0 && cross && EndToken(n, blockTokens) <= ReusableTokens(|tokens|, blockTokens)
     && MatchesUpTo(u, h, sequence, tokens, blockTokens, n)) ==>
      OldUpTo(u, w, sequence, blockTokens, n) && (n == b ==> Untaken(u, w))
  }

  /** Block `b` was held before, or the prompt's block is held now. */
  ghost predicate HoldsOrSpells(u: View, w: View, h: Hasher, sequence: nat, tokens: seq<nat>, blockTokens: nat, b: nat)
  {
    HoldsAt(u, sequence, EndToken(b, blockTokens)) || Spelled(w, h, sequence, tokens, blockTokens, b)
  }

  /**
   * From `u`, the blocks in `list` are reserved: the first of the prompt, in order. What the sequence held stays,
   * every other block is the prompt's, and, if sharing is allowed, the leading blocks to be found are not made anew.
   */
  ghost predicate Reserves(u: View, w: View, h: Hasher, sequence: nat, tokens: seq<nat>, blockTokens: nat, cross: bool,
                           list: seq<nat>)
  {
    && Grows(u, w) && HasAll(w, sequence, blockTokens, list)
    && GainedBelow(u, w, sequence, EndToken(|list|, blockTokens))
    && (forall b: nat :: b < |list| ==> HoldsOrSpells(u, w, h, sequence, tokens, blockTokens, b))
    && (forall n: nat :: n <= |list| ==> ReusesFound(u, w, h, sequence, tokens, blockTokens, cross, |list|, n))
  }

  ghost function ReserveSeal(u: View, w: View, h: Hasher, sequence: nat, tokens: seq<nat>, blockTokens: nat,
                             cross: bool, list: seq<nat>, n: nat): nat
  {
    if n > 0 then ReserveSeal(u, w, h, sequence, tokens, blockTokens, cross, list, n - 1)
    else if Reserves(u, w, h, sequence, tokens, blockTokens, cross, list) then 1 else 0
  }

  /** `Reserves`, sealed behind a recursion the verifier does not unroll. */
  ghost predicate Reserving(u: View, w: View, h: Hasher, sequence: nat, tokens: seq<nat>, blockTokens: nat, cross: bool,
                            list: seq<nat>)
  {
    ReserveSeal(u, w, h, sequence, tokens, blockTokens, cross, list, u.epoch + 2) == 1
  }

  lemma {:induction false} UnsealReserve(u: View, w: View, h: Hasher, sequence: nat, tokens: seq<nat>, blockTokens: nat,
                                         cross: bool, list: seq<nat>, n: nat)
    ensures ReserveSeal(u, w, h, sequence, tokens, blockTokens, cross, list, n) == 1
            <==> Reserves(u, w, h, sequence, tokens, blockTokens, cross, list)
  {
    if n > 0 {
      UnsealReserve(u, w, h, sequence, tokens, blockTokens, cross, list, n - 1);
    }
  }

  lemma OpenReserving(u: View, w: View, h: Hasher, sequence: nat, tokens: seq<nat>, blockTokens: nat, cross: bool,
                      list: seq<nat>)
    ensures Reserving(u, w, h, sequence, tokens, blockTokens, cross, list)
            <==> Reserves(u, w, h, sequence, tokens, blockTokens, cross, list)
  {
    UnsealReserve(u, w, h, sequence, tokens, blockTokens, cross, list, u.epoch + 2);
  }

  lemma ReservingStarts(u: View, h: Hasher, sequence: nat, tokens: seq<nat>, blockTokens: nat, cross: bool)
    ensures Reserving(u, u, h, sequence, tokens, blockTokens, cross, [])
  {
    var none: seq<nat> := [];
    assert HasAll(u, sequence, blockTokens, none) && OldUpTo(u, u, sequence, blockTokens, 0);
    OpenReserving(u, u, h, sequence, tokens, blockTokens, cross, []);
  }

  /** A block that is to be found still is, as long as no entry is taken over. */
  lemma FoundStill(u: View, m: View, h: Hasher, sequence: nat, tokens: seq<nat>, blockTokens: nat, b: nat)
    requires Coherent(u) && Grows(u, m) && Untaken(u, m) && Matches(u, h, sequence, tokens, blockTokens, b)
    ensures HoldsAt(m, sequence, EndToken(b, blockTokens)) || Offered(m, h, tokens, blockTokens, b)
  {
    var first := EndToken(b, blockTokens);
    if k: nat :| At(u, k, sequence, first) {
      assert OldBinding(u, m, k);
      assert At(m, k, sequence, first);
    } else {
      var block := BlockTokens(tokens, blockTokens, b);
      var parent := ChainHash(h, tokens, blockTokens, b);
      var i: nat :| Offers(u, i, parent, h.block(block, parent), h.content(block), first, blockTokens);
      assert HeldEntry(u.entries[i], m.entries[i]);
      assert Offers(m, i, parent, h.block(block, parent), h.content(block), first, blockTokens);
    }
  }

  /** Nothing was taken over for a block that was to be found. */
  ghost predicate TakesOnlyMissing(m: View, w: View, h: Hasher, sequence: nat, tokens: seq<nat>, blockTokens: nat,
                                   cross: bool, b: nat)
  {
    (&& blockTokens > 0 && cross && EndToken(b + 1, blockTokens) <= ReusableTokens(|tokens|, blockTokens)
     && (HoldsAt(m, sequence, EndToken(b, blockTokens)) || Offered(m, h, tokens, blockTokens, b))) ==> Untaken(m, w)
  }

  lemma UntakenIsOld(u: View, w: View, sequence: nat, first: nat, physical: nat)
    requires Coherent(w) && Untaken(u, w) && Has(w, sequence, first, physical)
    ensures HoldsOld(u, w, sequence, first)
  {
    var k: nat :| At(w, k, sequence, first) && w.bindings[k].physical == physical;
    UsedBinding(w, k);
    assert HeldEntry(u.entries[w.bindings[k].entry], w.entries[w.bindings[k].entry]);
    assert IsOld(u, w, w.bindings[k].entry);
  }

  lemma SharingSteps(u: View, m: View, w: View, h: Hasher, sequence: nat, tokens: seq<nat>, blockTokens: nat,
                     cross: bool, b: nat, physical: nat, n: nat)
    requires Coherent(u) && Coherent(m) && Coherent(w) && Grows(u, m) && Grows(m, w) && n <= b + 1
    requires forall c: nat :: c <= b ==> ReusesFound(u, m, h, sequence, tokens, blockTokens, cross, b, c)
    requires Has(w, sequence, EndToken(b, blockTokens), physical)
    requires TakesOnlyMissing(m, w, h, sequence, tokens, blockTokens, cross, b)
    ensures ReusesFound(u, w, h, sequence, tokens, blockTokens, cross, b + 1, n)
  {
    if blockTokens > 0 && cross && EndToken(n, blockTokens) <= ReusableTokens(|tokens|, blockTokens)
       && MatchesUpTo(u, h, sequence, tokens, blockTokens, n) {
      if n <= b {
        assert ReusesFound(u, m, h, sequence, tokens, blockTokens, cross, b, n);
        OldUpToStays(u, m, w, sequence, blockTokens, n);
      } else {
        assert ReusesFound(u, m, h, sequence, tokens, blockTokens, cross, b, b);
        FoundStill(u, m, h, sequence, tokens, blockTokens, b);
        UntakenChain(u, m, w);
        OldUpToStays(u, m, w, sequence, blockTokens, b);
        UntakenIsOld(u, w, sequence, EndToken(b, blockTokens), physical);
      }
    }
  }

  /** One more block reserved: the list grows, and so does what the sequence holds of the prompt. */
  lemma ReservingSteps(u: View, m: View, w: View, h: Hasher, sequence: nat, tokens: seq<nat>, blockTokens: nat,
                       cross: bool, list: seq<nat>, physical: nat)
    requires Coherent(u) && Coherent(m) && Coherent(w) && Reserving(u, m, h, sequence, tokens, blockTokens, cross, list)
    requires blockTokens > 0 && EndToken(|list|, blockTokens) < |tokens|
    requires Grows(m, w) && OnlyAt(m, w, sequence, EndToken(|list|, blockTokens))
    requires Has(w, sequence, EndToken(|list|, blockTokens), physical)
    requires HoldsOrSpells(m, w, h, sequence, tokens, blockTokens, |list|)
    requires TakesOnlyMissing(m, w, h, sequence, tokens, blockTokens, cross, |list|)
    ensures Reserving(u, w, h, sequence, tokens, blockTokens, cross, list + [physical])
  {
    var b, longer := |list|, list + [physical];
    OpenReserving(u, m, h, sequence, tokens, blockTokens, cross, list);
    GrowsChain(u, m, w);
    HasAllStays(m, w, sequence, blockTokens, list);
    assert longer[..b] == list;
    assert HasAll(w, sequence, blockTokens, longer);
    GainedOneMore(u, m, w, sequence, EndToken(b, blockTokens), EndToken(b + 1, blockTokens));
    forall c: nat | c < |longer| ensures HoldsOrSpells(u, w, h, sequence, tokens, blockTokens, c) {
      if c < b {
        assert HoldsOrSpells(u, m, h, sequence, tokens, blockTokens, c);
        if Spelled(m, h, sequence, tokens, blockTokens, c) {
          SpelledStays(m, w, h, sequence, tokens, blockTokens, c);
        }
      } else if k: nat :| At(m, k, sequence, EndToken(b, blockTokens)) {
        assert At(u, k, sequence, EndToken(b, blockTokens));
      }
    }
    forall n: nat | n <= |longer| ensures ReusesFound(u, w, h, sequence, tokens, blockTokens, cross, |longer|, n) {
      SharingSteps(u, m, w, h, sequence, tokens, blockTokens, cross, b, physical, n);
    }
    OpenReserving(u, w, h, sequence, tokens, blockTokens, cross, longer);
  }

  /** Where all that was held is the prompt's, all that is reserved is. */
  lemma {:induction false} FollowedIsSpelled(u: View, w: View, h: Hasher, sequence: nat, tokens: seq<nat>,
                                             blockTokens: nat, n: nat)
    requires Coherent(u) && Grows(u, w) && Follows(u, h, sequence, tokens, blockTokens, n)
    requires forall b: nat :: b < n ==> HoldsOrSpells(u, w, h, sequence, tokens, blockTokens, b)
    ensures SpelledUpTo(w, h, sequence, tokens, blockTokens, n)
  {
    if n > 0 {
      FollowedIsSpelled(u, w, h, sequence, tokens, blockTokens, n - 1);
      assert HoldsOrSpells(u, w, h, sequence, tokens, blockTokens, n - 1);
      if HoldsAt(u, sequence, EndToken(n - 1, blockTokens)) {
        var k: nat :| At(u, k, sequence, EndToken(n - 1, blockTokens));
        SpelledStays(u, w, h, sequence, tokens, blockTokens, n - 1);
      }
    }
  }

  // ---- Where bound entries come from ---------------------------------------

  /**
   * A new entry of the epoch, live-only unless it may be shared and is full; or, if sharing is allowed, a reusable one.
   */
  ghost predicate Proper(e: Entry, cross: bool, epoch: nat, blockTokens: nat) {
    || (&& e.valid && e.pending && !e.reusable && e.reservationEpoch == epoch
        && e.liveOnly == (!cross || e.tokens != blockTokens))
    || (cross && IsReusable(e, blockTokens))
  }

  ghost predicate SourcedAt(u: View, w: View, cross: bool, blockTokens: nat, k: nat) {
    && k < |u.bindings| && k < |w.bindings|
    && (!u.bindings[k].valid && w.bindings[k].valid ==>
          w.bindings[k].entry < |w.entries| && Proper(w.entries[w.bindings[k].entry], cross, w.epoch, blockTokens))
  }

  /** Every binding added since `u` is to a proper entry. */
  ghost predicate Sourced(u: View, w: View, cross: bool, blockTokens: nat) {
    |w.bindings| == |u.bindings| && forall k :: 0 <= k < |u.bindings| ==> SourcedAt(u, w, cross, blockTokens, k)
  }

  lemma NothingAdded(u: View, w: View, cross: bool, blockTokens: nat)
    requires |w.bindings| == |u.bindings| && forall k :: 0 <= k < |u.bindings| ==>
      w.bindings[k].valid == u.bindings[k].valid
    ensures Sourced(u, w, cross, blockTokens)
  {
  }

  lemma SourcedSteps(u: View, m: View, w: View, cross: bool, blockTokens: nat)
    requires Coherent(m) && Grows(m, w) && w.epoch == m.epoch && Sourced(u, m, cross, blockTokens)
    requires Sourced(m, w, cross, blockTokens)
    ensures Sourced(u, w, cross, blockTokens)
  {
    forall k | 0 <= k < |u.bindings| ensures SourcedAt(u, w, cross, blockTokens, k) {
      assert SourcedAt(u, m, cross, blockTokens, k) && SourcedAt(m, w, cross, blockTokens, k);
      if !u.bindings[k].valid && m.bindings[k].valid {
        UsedBinding(m, k);
        assert OldBinding(m, w, k) && BoundEntry(m, w, m.bindings[k].entry);
      }
    }
  }

  // ---- Probing a prompt ----------------------------------------------------

  ghost predicate TickedAt(v: View, w: View, i: nat) {
    i < |v.entries| && i < |w.entries| && w.entries[i] == v.entries[i].(tick := w.entries[i].tick)
  }

  /** Only when entries were last used has changed. */
  ghost predicate Ticked(v: View, w: View) {
    && w == v.(entries := w.entries) && |w.entries| == |v.entries|
    && forall i :: 0 <= i < |v.entries| ==> TickedAt(v, w, i)
  }

  lemma AvailableAnytime(v: View, w: View, sequence: nat, parentHash: nat, blockHash: nat, contentHash: nat, first: nat,
                         blockTokens: nat)
    requires Ticked(v, w) && Available(v, sequence, parentHash, blockHash, contentHash, first, blockTokens)
    ensures Available(w, sequence, parentHash, blockHash, contentHash, first, blockTokens)
  {
    if HasSpelled(v, sequence, parentHash, blockHash, contentHash, first, blockTokens) {
      var k: nat :|
        At(v, k, sequence, first) && v.bindings[k].entry < |v.entries|
        && Spells(v.entries[v.bindings[k].entry], parentHash, blockHash, contentHash, first, blockTokens);
      assert TickedAt(v, w, v.bindings[k].entry);
      assert At(w, k, sequence, first);
    } else {
      var i: nat :| Offers(v, i, parentHash, blockHash, contentHash, first, blockTokens);
      assert TickedAt(v, w, i);
      assert Offers(w, i, parentHash, blockHash, contentHash, first, blockTokens);
    }
  }

  lemma TickedBack(v: View, w: View)
    requires Ticked(v, w)
    ensures Ticked(w, v)
  {
    forall i | 0 <= i < |w.entries| ensures TickedAt(w, v, i) {
      assert TickedAt(v, w, i);
    }
  }

  lemma MatchesAnytime(v: View, w: View, h: Hasher, sequence: nat, tokens: seq<nat>, blockTokens: nat, b: nat)
    requires Ticked(v, w)
    ensures Matches(v, h, sequence, tokens, blockTokens, b) <==> Matches(w, h, sequence, tokens, blockTokens, b)
  {
    var block := BlockTokens(tokens, blockTokens, b);
    var parent := ChainHash(h, tokens, blockTokens, b);
    TickedBack(v, w);
    if Matches(v, h, sequence, tokens, blockTokens, b) {
      AvailableAnytime(v, w, sequence, parent, h.block(block, parent), h.content(block), EndToken(b, blockTokens),
                       blockTokens);
    }
    if Matches(w, h, sequence, tokens, blockTokens, b) {
      AvailableAnytime(w, v, sequence, parent, h.block(block, parent), h.content(block), EndToken(b, blockTokens),
                       blockTokens);
    }
  }

  lemma TickOneMore(v: View, m: View, w: View, i: nat)
    requires Ticked(v, m) && i < |m.entries| == |w.entries|
    requires w == m.(entries := m.entries[i := m.entries[i].(tick := w.entries[i].tick)])
    ensures Ticked(v, w)
  {
    forall j | 0 <= j < |v.entries| ensures TickedAt(v, w, j) {
      assert TickedAt(v, m, j);
    }
  }
}
