/** Room for a sequence's tokens in the prefix cache: which blocks a sequence holds, and how it comes to hold enough. */
module CacheCapacity {
  import opened Blocks
  import opened Results
  import opened CacheView
  import opened CacheTransactions
  import opened CachePrompts

  /** Tokens that block `b` must have room for, of `tokens` in all. */
  function Needed(tokens: nat, blockTokens: nat, b: nat): nat {
    var first := EndToken(b, blockTokens);
    if first + blockTokens <= tokens then blockTokens else if first <= tokens then tokens - first else 0
  }

  // ---- Covered -------------------------------------------------------------

  /** The sequence holds a block `b` with enough room. */
  ghost predicate Covers(v: View, sequence: nat, blockTokens: nat, tokens: nat, b: nat) {
    exists k: nat ::
      At(v, k, sequence, EndToken(b, blockTokens)) && v.bindings[k].tokens >= Needed(tokens, blockTokens, b)
  }

  ghost predicate CoveredUpTo(v: View, sequence: nat, blockTokens: nat, tokens: nat, n: nat) {
    n == 0 || (CoveredUpTo(v, sequence, blockTokens, tokens, n - 1) && Covers(v, sequence, blockTokens, tokens, n - 1))
  }

  lemma {:induction false} CoveredAt(v: View, sequence: nat, blockTokens: nat, tokens: nat, n: nat, b: nat)
    requires CoveredUpTo(v, sequence, blockTokens, tokens, n) && b < n
    ensures Covers(v, sequence, blockTokens, tokens, b)
  {
    if b < n - 1 {
      CoveredAt(v, sequence, blockTokens, tokens, n - 1, b);
    }
  }

  // ---- Ready ---------------------------------------------------------------

  /** Binding `k` names a committed block of a legal size. */
  ghost predicate Settled(v: View, k: nat, blockTokens: nat) {
    && k < |v.bindings| && 0 < v.bindings[k].tokens <= blockTokens
    && v.bindings[k].entry < |v.entries| && !v.entries[v.bindings[k].entry].pending
  }

  /** The sequence holds a committed block `b` with enough room. */
  ghost predicate Ready(v: View, sequence: nat, blockTokens: nat, tokens: nat, b: nat) {
    exists k: nat ::
      At(v, k, sequence, EndToken(b, blockTokens)) && Settled(v, k, blockTokens)
      && v.bindings[k].tokens >= Needed(tokens, blockTokens, b)
  }

  ghost predicate ReadyUpTo(v: View, sequence: nat, blockTokens: nat, tokens: nat, n: nat) {
    n == 0 || (ReadyUpTo(v, sequence, blockTokens, tokens, n - 1) && Ready(v, sequence, blockTokens, tokens, n - 1))
  }

  lemma {:induction false} ReadyAt(v: View, sequence: nat, blockTokens: nat, tokens: nat, n: nat, b: nat)
    requires ReadyUpTo(v, sequence, blockTokens, tokens, n) && b < n
    ensures Ready(v, sequence, blockTokens, tokens, b)
  {
    if b < n - 1 {
      ReadyAt(v, sequence, blockTokens, tokens, n - 1, b);
    }
  }

  /** Room for some tokens is room for fewer. */
  lemma {:induction false} ReadyForFewer(v: View, sequence: nat, blockTokens: nat, tokens: nat, n: nat, fewer: nat,
                                         m: nat)
    requires ReadyUpTo(v, sequence, blockTokens, tokens, n) && fewer <= tokens && m <= n
    ensures ReadyUpTo(v, sequence, blockTokens, fewer, m)
    decreases n
  {
    if m < n {
      ReadyForFewer(v, sequence, blockTokens, tokens, n - 1, fewer, m);
    } else if m > 0 {
      ReadyForFewer(v, sequence, blockTokens, tokens, n - 1, fewer, m - 1);
    }
  }

  lemma {:induction false} ReadyIsCovered(v: View, sequence: nat, blockTokens: nat, tokens: nat, n: nat)
    requires ReadyUpTo(v, sequence, blockTokens, tokens, n)
    ensures CoveredUpTo(v, sequence, blockTokens, tokens, n)
  {
    if n > 0 {
      ReadyIsCovered(v, sequence, blockTokens, tokens, n - 1);
      var k: nat :|
        At(v, k, sequence, EndToken(n - 1, blockTokens)) && Settled(v, k, blockTokens)
        && v.bindings[k].tokens >= Needed(tokens, blockTokens, n - 1);
      assert At(v, k, sequence, EndToken(n - 1, blockTokens));
    }
  }

  lemma {:induction false} BlockCountIncreases(a: nat, b: nat, blockTokens: nat)
    requires a <= b
    ensures BlockCount(a, blockTokens) <= BlockCount(b, blockTokens)
  {
    if a > 0 && blockTokens > 0 && BlockCount(b, blockTokens) < BlockCount(a, blockTokens) {
      EndTokenIncreases(BlockCount(b, blockTokens), BlockCount(a, blockTokens) - 1, blockTokens);
      assert false;
    }
  }

  /** Once room has been made for `tokens` tokens, the block table of any smaller count can be built. */
  lemma CapacityCoversFewer(v: View, sequence: nat, blockTokens: nat, tokens: nat, fewer: nat)
    requires ReadyUpTo(v, sequence, blockTokens, tokens, BlockCount(tokens, blockTokens)) && fewer <= tokens
    ensures ReadyUpTo(v, sequence, blockTokens, fewer, BlockCount(fewer, blockTokens))
    ensures CoveredUpTo(v, sequence, blockTokens, fewer, BlockCount(fewer, blockTokens))
  {
    BlockCountIncreases(fewer, tokens, blockTokens);
    ReadyForFewer(v, sequence, blockTokens, tokens, BlockCount(tokens, blockTokens), fewer,
                  BlockCount(fewer, blockTokens));
    ReadyIsCovered(v, sequence, blockTokens, fewer, BlockCount(fewer, blockTokens));
  }

  /** A sequence holds one binding at most at an offset, so the one found is the one that is ready. */
  lemma FoundIsReady(v: View, sequence: nat, blockTokens: nat, tokens: nat, b: nat, k: nat)
    requires Coherent(v) && At(v, k, sequence, EndToken(b, blockTokens)) && Ready(v, sequence, blockTokens, tokens, b)
    ensures Settled(v, k, blockTokens) && v.bindings[k].tokens >= Needed(tokens, blockTokens, b)
  {
    OpenCoherent(v);
    var l: nat :|
      && At(v, l, sequence, EndToken(b, blockTokens)) && Settled(v, l, blockTokens)
      && v.bindings[l].tokens >= Needed(tokens, blockTokens, b);
    assert l == k;
  }

  lemma FoundCovers(v: View, sequence: nat, blockTokens: nat, tokens: nat, b: nat, k: nat)
    requires Coherent(v) && At(v, k, sequence, EndToken(b, blockTokens)) && Covers(v, sequence, blockTokens, tokens, b)
    ensures v.bindings[k].tokens >= Needed(tokens, blockTokens, b)
  {
    OpenCoherent(v);
    var l: nat :|
      At(v, l, sequence, EndToken(b, blockTokens)) && v.bindings[l].tokens >= Needed(tokens, blockTokens, b);
    assert l == k;
  }

  // ---- Making room ---------------------------------------------------------

  /** Binding `k` names a block of a legal size, committed or pending at `epoch`. */
  ghost predicate Held(v: View, k: nat, blockTokens: nat, epoch: nat) {
    && k < |v.bindings| && 0 < v.bindings[k].tokens <= blockTokens && v.bindings[k].entry < |v.entries|
    && (v.entries[v.bindings[k].entry].pending ==> v.entries[v.bindings[k].entry].reservationEpoch == epoch)
  }

  /** The sequence holds a block `b`, with enough room unless it is the one that is to grow. */
  ghost predicate Fits(v: View, sequence: nat, blockTokens: nat, tokens: nat, epoch: nat, short: Option<nat>, b: nat) {
    exists k: nat ::
      && At(v, k, sequence, EndToken(b, blockTokens)) && Held(v, k, blockTokens, epoch)
      && (v.bindings[k].tokens >= Needed(tokens, blockTokens, b) || short == Some(k))
  }

  ghost predicate FitsUpTo(v: View, sequence: nat, blockTokens: nat, tokens: nat, epoch: nat, short: Option<nat>,
                           n: nat)
  {
    n == 0
    || (&& FitsUpTo(v, sequence, blockTokens, tokens, epoch, short, n - 1)
        && Fits(v, sequence, blockTokens, tokens, epoch, short, n - 1))
  }

  /** What fits stays, as the cache grows and a short block is found. */
  lemma FitStays(v: View, w: View, sequence: nat, blockTokens: nat, tokens: nat, epoch: nat, short: Option<nat>,
                 later: Option<nat>, b: nat)
    requires Coherent(v) && Grows(v, w) && (short.Some? ==> later == short)
    requires Fits(v, sequence, blockTokens, tokens, epoch, short, b)
    ensures Fits(w, sequence, blockTokens, tokens, epoch, later, b)
  {
    var k: nat :|
      && At(v, k, sequence, EndToken(b, blockTokens)) && Held(v, k, blockTokens, epoch)
      && (v.bindings[k].tokens >= Needed(tokens, blockTokens, b) || short == Some(k));
    UsedBinding(v, k);
    assert OldBinding(v, w, k) && BoundEntry(v, w, v.bindings[k].entry);
    assert At(w, k, sequence, EndToken(b, blockTokens));
  }

  lemma {:induction false} FitsUpToStays(v: View, w: View, sequence: nat, blockTokens: nat, tokens: nat, epoch: nat,
                                         short: Option<nat>, later: Option<nat>, n: nat)
    requires Coherent(v) && Grows(v, w) && (short.Some? ==> later == short)
    requires FitsUpTo(v, sequence, blockTokens, tokens, epoch, short, n)
    ensures FitsUpTo(w, sequence, blockTokens, tokens, epoch, later, n)
  {
    if n > 0 {
      FitsUpToStays(v, w, sequence, blockTokens, tokens, epoch, short, later, n - 1);
      FitStays(v, w, sequence, blockTokens, tokens, epoch, short, later, n - 1);
    }
  }

  /** Binding `k` of the sequence is the only one of its entry. */
  ghost predicate Sole(v: View, k: nat, sequence: nat) {
    && k < |v.bindings| && v.bindings[k].valid && v.bindings[k].sequence == sequence
    && v.bindings[k].entry < |v.entries| && v.entries[v.bindings[k].entry].refs == 1
  }

  ghost predicate SoleIfAny(v: View, short: Option<nat>, sequence: nat) {
    short.Some? ==> Sole(v, short.value, sequence)
  }

  /** Nothing but entry `i`, which nobody held, has changed. */
  ghost predicate OnlyEntry(v: View, w: View, i: nat) {
    && i < |v.entries| && |w.entries| == |v.entries| && v.entries[i].refs == 0
    && forall j :: 0 <= j < |v.entries| && j != i ==> w.entries[j] == v.entries[j]
  }

  lemma SoleStays(v: View, w: View, k: nat, sequence: nat, i: nat)
    requires Sole(v, k, sequence) && Grows(v, w) && OnlyEntry(v, w, i)
    ensures Sole(w, k, sequence)
  {
    assert OldBinding(v, w, k);
  }

  ghost function FitSeal(v: View, sequence: nat, blockTokens: nat, tokens: nat, epoch: nat, short: Option<nat>, b: nat,
                         n: nat): nat
  {
    if n > 0 then FitSeal(v, sequence, blockTokens, tokens, epoch, short, b, n - 1)
    else if FitsUpTo(v, sequence, blockTokens, tokens, epoch, short, b) && SoleIfAny(v, short, sequence) then 1 else 0
  }

  /** The first `b` blocks fit, and the one that is to grow is the sequence's own. Sealed. */
  ghost predicate Fitting(v: View, sequence: nat, blockTokens: nat, tokens: nat, epoch: nat, short: Option<nat>, b: nat)
  {
    FitSeal(v, sequence, blockTokens, tokens, epoch, short, b, epoch + 2) == 1
  }

  lemma {:induction false} UnsealFit(v: View, sequence: nat, blockTokens: nat, tokens: nat, epoch: nat,
                                     short: Option<nat>, b: nat, n: nat)
    ensures FitSeal(v, sequence, blockTokens, tokens, epoch, short, b, n) == 1
            <==> FitsUpTo(v, sequence, blockTokens, tokens, epoch, short, b) && SoleIfAny(v, short, sequence)
  {
    if n > 0 {
      UnsealFit(v, sequence, blockTokens, tokens, epoch, short, b, n - 1);
    }
  }

  lemma OpenFitting(v: View, sequence: nat, blockTokens: nat, tokens: nat, epoch: nat, short: Option<nat>, b: nat)
    ensures Fitting(v, sequence, blockTokens, tokens, epoch, short, b)
            <==> FitsUpTo(v, sequence, blockTokens, tokens, epoch, short, b) && SoleIfAny(v, short, sequence)
  {
    UnsealFit(v, sequence, blockTokens, tokens, epoch, short, b, epoch + 2);
  }

  // ---- Committing and growing ----------------------------------------------

  lemma FitCommits(u: View, w: View, sequence: nat, blockTokens: nat, tokens: nat, epoch: nat, short: Option<nat>,
                   b: nat)
    requires Committed(u, w, sequence, epoch, blockTokens) && Fits(u, sequence, blockTokens, tokens, epoch, short, b)
    ensures Fits(w, sequence, blockTokens, tokens, epoch, short, b)
  {
    var k: nat :|
      && At(u, k, sequence, EndToken(b, blockTokens)) && Held(u, k, blockTokens, epoch)
      && (u.bindings[k].tokens >= Needed(tokens, blockTokens, b) || short == Some(k));
    assert SettlesAt(u, w, sequence, epoch, |u.bindings|, k);
    assert CommitsAt(u, w, epoch, blockTokens, |u.entries|, u.bindings[k].entry);
    assert At(w, k, sequence, EndToken(b, blockTokens));
  }

  /** A short block's entry grown to a whole block; it is not to be shared. */
  function GrownEntry(e: Entry, blockTokens: nat): Entry {
    e.(tokens := blockTokens, reusable := false, liveOnly := true)
  }

  /** A short block has grown to a whole one; it is not to be shared. */
  function Extended(v: View, k: nat, blockTokens: nat): View
    requires k < |v.bindings| && v.bindings[k].entry < |v.entries|
  {
    var i := v.bindings[k].entry;
    v.(bindings := v.bindings[k := v.bindings[k].(tokens := blockTokens)],
       entries := v.entries[i := GrownEntry(v.entries[i], blockTokens)])
  }

  ghost predicate Grew(v: View, w: View, short: Option<nat>, blockTokens: nat) {
    if short.None? then w == v
    else
      && short.value < |v.bindings| && v.bindings[short.value].entry < |v.entries|
      && w == Extended(v, short.value, blockTokens)
  }

  /** Once committed and grown, what fits is ready. */
  lemma FitIsReady(u: View, w: View, sequence: nat, blockTokens: nat, tokens: nat, epoch: nat, short: Option<nat>,
                   b: nat)
    requires Fits(u, sequence, blockTokens, tokens, epoch, short, b) && NonePending(u, epoch)
    requires Grew(u, w, short, blockTokens) && Coherent(u)
    ensures Ready(w, sequence, blockTokens, tokens, b)
  {
    var k: nat :|
      && At(u, k, sequence, EndToken(b, blockTokens)) && Held(u, k, blockTokens, epoch)
      && (u.bindings[k].tokens >= Needed(tokens, blockTokens, b) || short == Some(k));
    UsedBinding(u, k);
    assert !IsPendingOf(u.entries[u.bindings[k].entry], epoch);
    assert At(w, k, sequence, EndToken(b, blockTokens));
  }

  lemma {:induction false} FitsAreReady(u: View, m: View, w: View, sequence: nat, blockTokens: nat, tokens: nat,
                                        epoch: nat, short: Option<nat>, n: nat)
    requires FitsUpTo(u, sequence, blockTokens, tokens, epoch, short, n)
    requires Committed(u, m, sequence, epoch, blockTokens)
    requires Coherent(m) && Grew(m, w, short, blockTokens)
    ensures ReadyUpTo(w, sequence, blockTokens, tokens, n)
  {
    if n > 0 {
      FitsAreReady(u, m, w, sequence, blockTokens, tokens, epoch, short, n - 1);
      FitCommits(u, m, sequence, blockTokens, tokens, epoch, short, n - 1);
      FitIsReady(m, w, sequence, blockTokens, tokens, epoch, short, n - 1);
    }
  }

  lemma SoleCommits(u: View, w: View, short: Option<nat>, sequence: nat, epoch: nat, blockTokens: nat)
    requires SoleIfAny(u, short, sequence) && Committed(u, w, sequence, epoch, blockTokens)
    ensures SoleIfAny(w, short, sequence)
  {
    if short.Some? {
      assert SettlesAt(u, w, sequence, epoch, |u.bindings|, short.value);
      assert CommitsAt(u, w, epoch, blockTokens, |u.entries|, u.bindings[short.value].entry);
    }
  }

  lemma ExtendedIsCoherent(v: View, k: nat, sequence: nat, blockTokens: nat)
    requires Coherent(v) && Sole(v, k, sequence)
    ensures Coherent(Extended(v, k, blockTokens))
  {
    var i := v.bindings[k].entry;
    GrownIsCoherent(v, i, k, blockTokens);
    SameHoldingsAreCoherent(Grown(v, i, k, blockTokens), Extended(v, k, blockTokens));
  }

  // ---- Other sequences -----------------------------------------------------

  /** A binding of another sequence, and its entry, are as they were. */
  ghost predicate Undisturbed(v: View, w: View, sequence: nat, k: nat) {
    && k < |v.bindings| && k < |w.bindings|
    && (v.bindings[k].valid && v.bindings[k].sequence != sequence ==>
          && w.bindings[k] == v.bindings[k].(pending := w.bindings[k].pending)
          && v.bindings[k].entry < |v.entries| && v.bindings[k].entry < |w.entries|
          && HeldEntry(v.entries[v.bindings[k].entry], w.entries[v.bindings[k].entry]))
    && (w.bindings[k].valid && w.bindings[k].sequence != sequence ==>
        v.bindings[k].valid && v.bindings[k].sequence != sequence)
  }

  /**
   * No entry bound by another sequence changes but in references and last use, and no other sequence gains a binding.
   */
  ghost predicate OthersKeep(v: View, w: View, sequence: nat) {
    forall k :: 0 <= k < |v.bindings| ==> Undisturbed(v, w, sequence, k)
  }

  lemma RestoredKeepsOthers(v: View, w: View, sequence: nat, epoch: nat)
    requires Coherent(v) && Restored(v, w, epoch)
    ensures OthersKeep(v, w, sequence)
  {
    forall k | 0 <= k < |v.bindings| ensures Undisturbed(v, w, sequence, k) {
      assert OldBinding(v, w, k);
      if v.bindings[k].valid {
        UsedBinding(v, k);
        assert OldEntry(v, w, v.bindings[k].entry);
      }
    }
  }

  lemma SoleIsOnly(v: View, k: nat, l: nat, sequence: nat)
    requires Coherent(v) && Sole(v, k, sequence) && l < |v.bindings| && v.bindings[l].valid && l != k
    ensures v.bindings[l].entry != v.bindings[k].entry
  {
    UsedBinding(v, k);
    OnlyBinder(v, v.bindings[k].entry, k);
  }

  lemma HeldKeeps(v: View, u: View, m: View, sequence: nat, epoch: nat, blockTokens: nat, k: nat)
    requires Coherent(v) && Kept(v, u, sequence, epoch) && NonePending(v, epoch)
    requires Committed(u, m, sequence, epoch, blockTokens)
    requires k < |v.bindings| && v.bindings[k].valid
    ensures k < |m.bindings| && m.bindings[k] == v.bindings[k].(pending := m.bindings[k].pending)
    ensures v.bindings[k].entry < |v.entries| == |m.entries|
    ensures HeldEntry(v.entries[v.bindings[k].entry], m.entries[v.bindings[k].entry])
  {
    UsedBinding(v, k);
    var i := v.bindings[k].entry;
    assert OldBinding(v, u, k) && OldEntry(v, u, i);
    assert SettlesAt(u, m, sequence, epoch, |u.bindings|, k) && CommitsAt(u, m, epoch, blockTokens, |u.entries|, i);
    assert !IsPendingOf(v.entries[i], epoch);
  }

  lemma OthersKeepTheirs(v: View, u: View, m: View, w: View, sequence: nat, epoch: nat, blockTokens: nat,
                         short: Option<nat>)
    requires Coherent(v) && Coherent(m) && Kept(v, u, sequence, epoch) && NonePending(v, epoch)
    requires Committed(u, m, sequence, epoch, blockTokens) && SoleIfAny(m, short, sequence)
    requires Grew(m, w, short, blockTokens)
    ensures OthersKeep(v, w, sequence)
  {
    forall k | 0 <= k < |v.bindings| ensures Undisturbed(v, w, sequence, k) {
      assert OldBinding(v, u, k) && NewBinding(v, u, sequence, epoch, k);
      assert SettlesAt(u, m, sequence, epoch, |u.bindings|, k);
      if v.bindings[k].valid && v.bindings[k].sequence != sequence {
        UsedBinding(v, k);
        HeldKeeps(v, u, m, sequence, epoch, blockTokens, k);
        if short.Some? {
          SoleIsOnly(m, short.value, k, sequence);
        }
      }
    }
  }

  /** A binding keeps its entry and its block; its tokens too, unless it is the one that has grown. */
  ghost predicate HeldOn(v: View, w: View, grown: Option<nat>, blockTokens: nat, k: nat) {
    && k < |v.bindings| && k < |w.bindings|
    && (v.bindings[k].valid ==>
          var b, i := v.bindings[k], v.bindings[k].entry;
          && i < |v.entries| && i < |w.entries|
          && w.bindings[k]
             == b.(pending := w.bindings[k].pending, tokens := if grown == Some(k) then blockTokens else b.tokens)
          && HeldEntry(if grown == Some(k) then GrownEntry(v.entries[i], blockTokens) else v.entries[i], w.entries[i]))
  }

  ghost predicate HeldOnBut(v: View, w: View, grown: Option<nat>, blockTokens: nat) {
    forall k :: 0 <= k < |v.bindings| ==> HeldOn(v, w, grown, blockTokens, k)
  }

  /** All that was held is held on; at most one block, the sequence's own, has grown to a whole one. */
  ghost predicate HoldsOn(v: View, w: View, sequence: nat, blockTokens: nat) {
    exists grown: Option<nat> ::
      HeldOnBut(v, w, grown, blockTokens)
      && (grown.Some? ==> grown.value < |w.bindings| && w.bindings[grown.value].sequence == sequence)
  }

  lemma AllIsHeldOn(v: View, u: View, m: View, w: View, sequence: nat, epoch: nat, blockTokens: nat, short: Option<nat>)
    requires Coherent(v) && Coherent(m) && Kept(v, u, sequence, epoch) && NonePending(v, epoch)
    requires Committed(u, m, sequence, epoch, blockTokens) && SoleIfAny(m, short, sequence)
    requires Grew(m, w, short, blockTokens)
    ensures HoldsOn(v, w, sequence, blockTokens)
  {
    forall k | 0 <= k < |v.bindings| ensures HeldOn(v, w, short, blockTokens, k) {
      assert OldBinding(v, u, k) && SettlesAt(u, m, sequence, epoch, |u.bindings|, k);
      if v.bindings[k].valid {
        HeldKeeps(v, u, m, sequence, epoch, blockTokens, k);
        if short.Some? && short.value != k {
          SoleIsOnly(m, short.value, k, sequence);
        }
      }
    }
    assert HeldOnBut(v, w, short, blockTokens);
  }

  // ---- What was added ------------------------------------------------------

  ghost predicate AddedPrivately(v: View, w: View, k: nat) {
    && k < |v.bindings| && k < |w.bindings|
    && (!v.bindings[k].valid && w.bindings[k].valid ==>
          && w.bindings[k].entry < |w.entries|
          && var e := w.entries[w.bindings[k].entry]; e.liveOnly && !e.reusable && !e.pending)
  }

  /** Every block added is committed and live-only: no other sequence can come to share it. */
  ghost predicate AddsPrivately(v: View, w: View) {
    |w.bindings| == |v.bindings| && forall k :: 0 <= k < |v.bindings| ==> AddedPrivately(v, w, k)
  }

  lemma AddedBlocksArePrivate(v: View, u: View, m: View, w: View, sequence: nat, epoch: nat, blockTokens: nat,
                              short: Option<nat>)
    requires Sourced(v, u, false, blockTokens) && u.epoch == epoch && Committed(u, m, sequence, epoch, blockTokens)
    requires Grew(m, w, short, blockTokens) && NonePending(m, epoch)
    ensures AddsPrivately(v, w)
  {
    forall k | 0 <= k < |v.bindings| ensures AddedPrivately(v, w, k) {
      assert SourcedAt(v, u, false, blockTokens, k) && SettlesAt(u, m, sequence, epoch, |u.bindings|, k);
      if !v.bindings[k].valid && u.bindings[k].valid {
        assert CommitsAt(u, m, epoch, blockTokens, |u.entries|, u.bindings[k].entry);
      }
    }
  }

  // ---- Doing it again ------------------------------------------------------

  /** Committing an epoch that has nothing changes nothing. */
  lemma NothingToCommit(v: View, w: View, sequence: nat, epoch: nat, blockTokens: nat)
    requires Coherent(v) && NonePending(v, epoch) && epoch > v.epoch
    requires Committed(v.(epoch := epoch), w, sequence, epoch, blockTokens)
    ensures w == v.(epoch := epoch)
  {
    OpenCoherent(v);
    var u := v.(epoch := epoch);
    forall i | 0 <= i < |v.entries| ensures w.entries[i] == v.entries[i] {
      assert CommitsAt(u, w, epoch, blockTokens, |u.entries|, i) && !IsPendingOf(v.entries[i], epoch);
    }
    forall k | 0 <= k < |v.bindings| ensures w.bindings[k] == v.bindings[k] {
      assert SettlesAt(u, w, sequence, epoch, |u.bindings|, k) && BindingStored(v, k);
    }
  }

  /** The clock does not matter to what is ready. */
  lemma ReadyAnytime(v: View, sequence: nat, blockTokens: nat, tokens: nat, epoch: nat, b: nat)
    requires Ready(v, sequence, blockTokens, tokens, b)
    ensures Ready(v.(epoch := epoch), sequence, blockTokens, tokens, b)
  {
    var k: nat :|
      && At(v, k, sequence, EndToken(b, blockTokens)) && Settled(v, k, blockTokens)
      && v.bindings[k].tokens >= Needed(tokens, blockTokens, b);
    assert At(v.(epoch := epoch), k, sequence, EndToken(b, blockTokens));
  }

  /** The block the sequence holds as its block `b` is one of the first `limit` of the arena. */
  ghost predicate Within(v: View, sequence: nat, blockTokens: nat, limit: nat, b: nat) {
    exists k: nat :: At(v, k, sequence, EndToken(b, blockTokens)) && v.bindings[k].physical < limit
  }

  ghost predicate WithinUpTo(v: View, sequence: nat, blockTokens: nat, limit: nat, n: nat) {
    n == 0 || (WithinUpTo(v, sequence, blockTokens, limit, n - 1) && Within(v, sequence, blockTokens, limit, n - 1))
  }

  lemma FoundIsWithin(v: View, sequence: nat, blockTokens: nat, limit: nat, b: nat, k: nat)
    requires Coherent(v) && At(v, k, sequence, EndToken(b, blockTokens))
    ensures Within(v, sequence, blockTokens, limit, b) <==> v.bindings[k].physical < limit
  {
    OpenCoherent(v);
  }

  /** In an arena no larger than the cache was told, every block is. */
  lemma {:induction false} RightSizedArena(v: View, sequence: nat, blockTokens: nat, tokens: nat, limit: nat, n: nat)
    requires Coherent(v) && |v.blocks| <= limit && ReadyUpTo(v, sequence, blockTokens, tokens, n)
    ensures WithinUpTo(v, sequence, blockTokens, limit, n)
  {
    if n > 0 {
      RightSizedArena(v, sequence, blockTokens, tokens, limit, n - 1);
      var k: nat :|
        At(v, k, sequence, EndToken(n - 1, blockTokens)) && Settled(v, k, blockTokens)
        && v.bindings[k].tokens >= Needed(tokens, blockTokens, n - 1);
      UsedBinding(v, k);
      assert At(v, k, sequence, EndToken(n - 1, blockTokens));
    }
  }
}
