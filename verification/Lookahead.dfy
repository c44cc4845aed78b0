/**
 * Lookahead protection: the blocks of a prompt that is expected are protected, and
 * give way only when nothing unprotected is left.
 */
module Lookahead {
  import opened Arithmetic
  import opened Blocks
  import opened Results
  import opened CacheView
  import opened CacheTransactions
  import opened CachePrompts
  import opened CacheStamps
  import opened CacheSteps
  import opened PrefixCache

  // ---- One entry -----------------------------------------------------------

  /** An entry a prompt of weight `weight` asks for, under lookahead `protection`. */
  function Guarded(e: Entry, protection: nat, weight: nat): Entry {
    if e.lookaheadEpoch != protection then e.(lookaheadEpoch := protection, priority := weight)
    else e.(priority := Max(e.priority, weight))
  }

  /** A guarded entry is protected, weighs at least `weight`, and no less than it did while protected. */
  lemma GuardedIsProtected(e: Entry, protection: nat, weight: nat)
    requires protection != 0
    ensures var g := Guarded(e, protection, weight);
      && IsProtected(protection, g) && g.priority >= weight
      && (IsProtected(protection, e) ==> g.priority >= e.priority)
      && (g.priority == weight || (IsProtected(protection, e) && g.priority == e.priority))
  {
  }

  /** Entry `i` is the first that offers block `b` of a prompt. */
  ghost predicate IsFirstOffer(v: View, h: Hasher, tokens: seq<nat>, blockTokens: nat, b: nat, i: nat) {
    var block, parent := BlockTokens(tokens, blockTokens, b), ChainHash(h, tokens, blockTokens, b);
    var first := EndToken(b, blockTokens);
    && Offers(v, i, parent, h.block(block, parent), h.content(block), first, blockTokens)
    && forall j: nat :: Offers(v, j, parent, h.block(block, parent), h.content(block), first, blockTokens) ==> i <= j
  }

  /** Some entry offers block `b` of a prompt. */
  ghost predicate IsOffered(v: View, h: Hasher, tokens: seq<nat>, blockTokens: nat, b: nat) {
    exists i: nat :: IsFirstOffer(v, h, tokens, blockTokens, b, i)
  }

  ghost predicate OfferedUpTo(v: View, h: Hasher, tokens: seq<nat>, blockTokens: nat, found: seq<nat>) {
    forall b :: 0 <= b < |found| ==> IsFirstOffer(v, h, tokens, blockTokens, b, found[b])
  }

  /** Exactly the entries in `found` are guarded; nothing else has changed. */
  ghost predicate Guards(a: Times, b: Times, found: set<nat>, weight: nat) {
    && b.tick == a.tick && b.protection == a.protection && |b.entries| == |a.entries|
    && forall i :: 0 <= i < |a.entries| ==>
         b.entries[i] == if i in found then Guarded(a.entries[i], a.protection, weight) else a.entries[i]
  }

  lemma NoneGuarded(a: Times, weight: nat)
    ensures Guards(a, a, SetOf([]), weight)
  {
  }

  lemma GuardsOneMore(a: Times, b: Times, found: seq<nat>, i: nat, weight: nat)
    requires Guards(a, b, SetOf(found), weight) && i < |b.entries| && i !in found
    ensures var e := Guarded(b.entries[i], b.protection, weight);
      Guards(a, b.(entries := b.entries[i := e]), SetOf(found + [i]), weight)
  {
    assert SetOf(found + [i]) == SetOf(found) + {i};
  }

  /** Protection changes no offer. */
  lemma OffersIgnoreProtection(v: View, w: View, h: Hasher, tokens: seq<nat>, blockTokens: nat, b: nat, a: Times,
                               found: set<nat>, weight: nat, t: Times)
    requires a.entries == v.entries && t.entries == w.entries && Guards(a, t, found, weight)
    ensures forall i: nat ::
      IsFirstOffer(w, h, tokens, blockTokens, b, i) <==> IsFirstOffer(v, h, tokens, blockTokens, b, i)
  {
    var block, parent := BlockTokens(tokens, blockTokens, b), ChainHash(h, tokens, blockTokens, b);
    var first := EndToken(b, blockTokens);
    forall i: nat
      ensures Offers(w, i, parent, h.block(block, parent), h.content(block), first, blockTokens) <==>
        Offers(v, i, parent, h.block(block, parent), h.content(block), first, blockTokens)
    {
    }
  }

  /** The entries found for different blocks differ. */
  lemma FoundIsNew(v: View, h: Hasher, tokens: seq<nat>, blockTokens: nat, found: seq<nat>, i: nat)
    requires blockTokens > 0 && OfferedUpTo(v, h, tokens, blockTokens, found)
    requires IsFirstOffer(v, h, tokens, blockTokens, |found|, i)
    ensures i !in found
  {
    forall b | 0 <= b < |found| ensures found[b] != i {
      EndTokenIncreases(b + 1, |found|, blockTokens);
      assert IsFirstOffer(v, h, tokens, blockTokens, b, found[b]);
    }
  }

  // ---- The operations ------------------------------------------------------

  /** The entries, each without protection. */
  method WithoutProtection(entries: seq<Entry>) returns (cleared: seq<Entry>)
    ensures |cleared| == |entries|
    ensures forall i :: 0 <= i < |entries| ==> cleared[i] == entries[i].(lookaheadEpoch := 0, priority := 0)
  {
    cleared := entries;
    for i := 0 to |entries|
      invariant |cleared| == |entries|
      invariant forall j :: 0 <= j < |entries| ==>
        cleared[j] == if j < i then entries[j].(lookaheadEpoch := 0, priority := 0) else entries[j]
    {
      cleared := cleared[i := cleared[i].(lookaheadEpoch := 0, priority := 0)];
    }
  }

  /** Begin a new lookahead: nothing is protected any more. */
  method ResetProtection(cache: PrefixCache)
    requires cache.Valid()
    modifies cache`core
    ensures cache.Valid() && cache.core.lookaheadEpoch != 0
    ensures var c := old(cache.core);
      cache.core == c.(entries := cache.core.entries, lookaheadEpoch := cache.core.lookaheadEpoch)
    ensures |cache.core.entries| == |old(cache.core.entries)|
    ensures forall i :: 0 <= i < |cache.core.entries| ==>
      var e := old(cache.core).entries[i];
      && cache.core.entries[i] == e.(lookaheadEpoch := cache.core.entries[i].lookaheadEpoch,
                                     priority := cache.core.entries[i].priority)
      && (e.valid ==> !IsProtected(cache.core.lookaheadEpoch, cache.core.entries[i]))
    ensures old(cache.core).lookaheadEpoch == 0 ==> cache.core == old(cache.core).(lookaheadEpoch := 1)
  {
    ghost var c := cache.core;
    GoodClock(c, cache.arena.a, cache.freeEntries, cache.freeBindings);
    GoodHeads(c, cache.arena.a, cache.freeEntries, cache.freeBindings);
    if cache.core.lookaheadEpoch + 1 < 0x1_0000_0000_0000_0000 {
      cache.core := cache.core.(lookaheadEpoch := cache.core.lookaheadEpoch + 1);
    } else {
      var entries := WithoutProtection(cache.core.entries);
      cache.core := cache.core.(lookaheadEpoch := 1, entries := entries);
    }
    SameHoldingsAreGood(c, cache.arena.a, cache.core, cache.arena.a, cache.freeEntries, cache.freeBindings);
  }

  /** Protect one entry. */
  method ProtectEntry(cache: PrefixCache, i: nat, weight: nat)
    requires cache.Valid() && i < |cache.core.entries|
    modifies cache`core
    ensures cache.Valid()
    ensures var c := old(cache.core);
      cache.core == c.(entries := c.entries[i := Guarded(c.entries[i], c.lookaheadEpoch, weight)])
  {
    ghost var c := cache.core;
    GoodClock(c, cache.arena.a, cache.freeEntries, cache.freeBindings);
    GoodHeads(c, cache.arena.a, cache.freeEntries, cache.freeBindings);
    var e := Guarded(cache.core.entries[i], cache.core.lookaheadEpoch, weight);
    cache.core := cache.core.(entries := cache.core.entries[i := e]);
    SameHoldingsAreGood(c, cache.arena.a, cache.core, cache.arena.a, cache.freeEntries, cache.freeBindings);
  }

  /** Protect block `b` of a prompt, after those of `found`; answers its hash if it is on offer. */
  method ProtectBlock(cache: PrefixCache, block: seq<nat>, first: nat, parentHash: nat, weight: nat,
                      ghost tokens: seq<nat>, ghost found: seq<nat>, ghost v: View, ghost a: Times)
    returns (r: Option<nat>, ghost i: nat)
    requires cache.Valid() && a.entries == v.entries && Guards(a, TimesOf(cache.core), SetOf(found), weight)
    requires OfferedUpTo(v, cache.hasher, tokens, cache.blockTokens, found)
    requires block == BlockTokens(tokens, cache.blockTokens, |found|) && first == EndToken(|found|, cache.blockTokens)
    requires parentHash == ChainHash(cache.hasher, tokens, cache.blockTokens, |found|)
    modifies cache`core
    ensures cache.Valid() && cache.core == old(cache.core).(entries := cache.core.entries)
    ensures r.None? ==>
      cache.core == old(cache.core) && !IsOffered(v, cache.hasher, tokens, cache.blockTokens, |found|)
    ensures r.Some? ==>
      && r.value == cache.hasher.block(block, parentHash)
      && IsFirstOffer(v, cache.hasher, tokens, cache.blockTokens, |found|, i)
      && Guards(a, TimesOf(cache.core), SetOf(found + [i]), weight)
  {
    ghost var t := TimesOf(cache.core);
    OffersIgnoreProtection(v, cache.State(), cache.hasher, tokens, cache.blockTokens, |found|, a, SetOf(found), weight,
                           t);
    var blockHash := cache.hasher.block(block, parentHash);
    var entry := cache.FindReusable(parentHash, blockHash, cache.hasher.content(block), first);
    if entry.None? {
      forall i: nat ensures !IsFirstOffer(v, cache.hasher, tokens, cache.blockTokens, |found|, i) {
        assert !IsFirstOffer(cache.State(), cache.hasher, tokens, cache.blockTokens, |found|, i);
      }
      return None, 0;
    }
    assert IsFirstOffer(cache.State(), cache.hasher, tokens, cache.blockTokens, |found|, entry.value);
    FoundIsNew(v, cache.hasher, tokens, cache.blockTokens, found, entry.value);
    GuardsOneMore(a, t, found, entry.value, weight);
    ProtectEntry(cache, entry.value, weight);
    return Some(blockHash), entry.value;
  }

  /** Protect, under the current lookahead, the leading blocks of a prompt that are on offer. */
  method ProtectBlocks(cache: PrefixCache, tokens: seq<nat>, weight: nat, ghost last: nat)
    returns (blocks: nat, ghost found: seq<nat>)
    requires cache.Valid() && tokens != []
    requires ReusableTokens(|tokens|, cache.blockTokens) == EndToken(last, cache.blockTokens) < |tokens|
    modifies cache`core
    ensures cache.Valid() && |found| == blocks
    ensures OfferedUpTo(old(cache.State()), cache.hasher, tokens, cache.blockTokens, found)
    ensures EndToken(blocks, cache.blockTokens) <= ReusableTokens(|tokens|, cache.blockTokens)
    ensures EndToken(blocks, cache.blockTokens) < ReusableTokens(|tokens|, cache.blockTokens) ==>
      !IsOffered(old(cache.State()), cache.hasher, tokens, cache.blockTokens, blocks)
    ensures Guards(TimesOf(old(cache.core)), TimesOf(cache.core), SetOf(found), weight)
    ensures cache.core == old(cache.core).(entries := cache.core.entries)
  {
    ghost var v, a := cache.State(), TimesOf(cache.core);
    var reusable := ReusableTokens(|tokens|, cache.blockTokens);
    var parentHash, first := EMPTY_PARENT, 0;
    blocks, found := 0, [];
    NoneGuarded(a, weight);
    while first < reusable
      invariant cache.Valid() && cache.core == old(cache.core).(entries := cache.core.entries)
      invariant first == EndToken(blocks, cache.blockTokens) <= reusable && |found| == blocks
      invariant parentHash == ChainHash(cache.hasher, tokens, cache.blockTokens, blocks)
      invariant OfferedUpTo(v, cache.hasher, tokens, cache.blockTokens, found)
      invariant Guards(a, TimesOf(cache.core), SetOf(found), weight)
      decreases reusable - first
    {
      BlockFits(blocks, last, cache.blockTokens);
      var block := tokens[first..first + cache.blockTokens];
      assert block == BlockTokens(tokens, cache.blockTokens, blocks);
      ghost var i := 0;
      var next;
      next, i := ProtectBlock(cache, block, first, parentHash, weight, tokens, found, v, a);
      if next.None? {
        return;
      }
      found := found + [i];
      parentHash := next.value;
      first := first + cache.blockTokens;
      blocks := blocks + 1;
    }
  }

  /** Protect the leading blocks of a prompt that are on offer; answers the tokens and blocks protected. */
  method ProtectPrompt(cache: PrefixCache, tokens: seq<nat>, weight: nat)
    returns (r: Result<(nat, nat), CacheError>, ghost found: seq<nat>)
    requires cache.Valid()
    modifies cache`core
    ensures cache.Valid()
    ensures r.Err? <==> tokens == []
    ensures r.Err? ==> r.error == BadArgument && cache.core == old(cache.core)
    ensures r.Ok? ==>
      && |found| == r.value.1 && r.value.0 == EndToken(r.value.1, cache.blockTokens)
      && r.value.0 <= ReusableTokens(|tokens|, cache.blockTokens)
      && OfferedUpTo(old(cache.State()), cache.hasher, tokens, cache.blockTokens, found)
      && (r.value.0 < ReusableTokens(|tokens|, cache.blockTokens) ==>
            !IsOffered(old(cache.State()), cache.hasher, tokens, cache.blockTokens, r.value.1))
    ensures r.Ok? ==>
      var a := TimesOf(old(cache.core));
      Guards(if a.protection == 0 then a.(protection := 1) else a, TimesOf(cache.core), SetOf(found), weight)
  {
    found := [];
    if tokens == [] {
      return Err(BadArgument), found;
    }
    if cache.core.lookaheadEpoch == 0 {
      ResetProtection(cache);
    }
    ghost var last := ReusableIsWhole(|tokens|, cache.blockTokens);
    var blocks;
    blocks, found := ProtectBlocks(cache, tokens, weight, last);
    return Ok((EndToken(blocks, cache.blockTokens), blocks)), found;
  }

  // ---- What protection is for ----------------------------------------------

  /** A protected entry gives way only if every entry that could go and is not protected is used too. */
  lemma ProtectedGoesLast(a: Times, b: Times, c: Times, found: set<nat>, weight: nat, used: set<nat>, i: nat, j: nat)
    requires a.protection != 0 && Guards(a, b, found, weight) && Uses(b, c, used)
    requires i in found && TakenOver(b, c, i)
    requires j < |b.entries| && Evictable(b.entries[j]) && !IsProtected(b.protection, b.entries[j])
    ensures j in used
  {
    GuardedIsProtected(a.entries[i], a.protection, weight);
    if j !in used {
      TakenInTurn(b, c, used, i, j);
    }
  }

  /** Of two protected entries the one that weighs less gives way first. */
  lemma LighterGoesFirst(a: Times, b: Times, used: set<nat>, i: nat, j: nat)
    requires Uses(a, b, used) && TakenOver(a, b, i) && IsProtected(a.protection, a.entries[i])
    requires j < |a.entries| && Evictable(a.entries[j]) && IsProtected(a.protection, a.entries[j])
    requires a.entries[j].priority < a.entries[i].priority
    ensures j in used
  {
    if j !in used {
      TakenInTurn(a, b, used, i, j);
    }
  }
}
