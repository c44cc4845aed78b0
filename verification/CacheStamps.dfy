/**
 * When entries were last used: which entries an operation stamps with the time, and
 * that an entry just used goes after every entry left alone when a victim is chosen.
 */
module CacheStamps {
  import opened Blocks
  import opened CacheView
  import opened CacheTransactions
  import opened CachePrompts

  // ---- The order of eviction -----------------------------------------------

  predicate IsProtected(protection: nat, e: Entry) {
    protection != 0 && e.lookaheadEpoch == protection
  }

  /** Eviction order: entries without lookahead protection first, then by priority and age. */
  predicate GoesBefore(protection: nat, x: Entry, i: nat, y: Entry, j: nat) {
    var a, b := IsProtected(protection, x), IsProtected(protection, y);
    if a != b then !a
    else if a && x.priority != y.priority then x.priority < y.priority
    else x.tick < y.tick || (x.tick == y.tick && i <= j)
  }

  /** Of two entries exactly one goes before the other. */
  lemma OrderIsStrict(protection: nat, x: Entry, i: nat, y: Entry, j: nat)
    requires i != j
    ensures GoesBefore(protection, x, i, y, j) <==> !GoesBefore(protection, y, j, x, i)
  {
  }

  /** Only their age decides which of two entries goes first. */
  predicate SameStanding(protection: nat, x: Entry, y: Entry) {
    && IsProtected(protection, x) == IsProtected(protection, y)
    && (IsProtected(protection, x) ==> x.priority == y.priority)
  }

  // ---- Stamps --------------------------------------------------------------

  /** The entries, the clock, and the lookahead epoch that protects entries. */
  datatype Times = Times(entries: seq<Entry>, tick: nat, protection: nat)

  /** A used entry is stamped after the clock stood at `t`; it is the one it was, or one that was free or could go. */
  ghost predicate Stamped(x: Entry, y: Entry, t: nat, u: nat) {
    t < y.tick <= u && (HeldEntry(x, y) || !x.valid || Evictable(x))
  }

  /** Entry `i` has been taken over for another block of tokens. */
  ghost predicate TakenOver(a: Times, b: Times, i: nat) {
    i < |a.entries| && i < |b.entries| && Evictable(a.entries[i]) && !HeldEntry(a.entries[i], b.entries[i])
  }

  /**
   * Exactly the entries in `used` are stamped and all others are as they were; what has been taken over went before
   * everything that could go and was left alone.
   */
  ghost predicate UsesOnly(a: Times, b: Times, used: set<nat>) {
    && a.tick <= b.tick && |b.entries| == |a.entries| && b.protection == a.protection
    && (forall i :: 0 <= i < |a.entries| && i !in used ==> b.entries[i] == a.entries[i])
    && (forall i :: 0 <= i < |a.entries| && i in used ==> Stamped(a.entries[i], b.entries[i], a.tick, b.tick))
    && (forall i, j ::
          i in used && TakenOver(a, b, i) && 0 <= j < |a.entries| && j !in used && Evictable(a.entries[j]) ==>
          GoesBefore(a.protection, a.entries[i], i, a.entries[j], j))
  }

  ghost function UseSeal(a: Times, b: Times, used: set<nat>, n: nat): nat {
    if n > 0 then UseSeal(a, b, used, n - 1) else if UsesOnly(a, b, used) then 1 else 0
  }

  /** `UsesOnly`, sealed behind a recursion the verifier does not unroll. */
  ghost predicate Uses(a: Times, b: Times, used: set<nat>) {
    UseSeal(a, b, used, a.tick + 2) == 1
  }

  lemma {:induction false} UnsealUses(a: Times, b: Times, used: set<nat>, n: nat)
    ensures UseSeal(a, b, used, n) == 1 <==> UsesOnly(a, b, used)
  {
    if n > 0 {
      UnsealUses(a, b, used, n - 1);
    }
  }

  lemma OpenUses(a: Times, b: Times, used: set<nat>)
    ensures Uses(a, b, used) <==> UsesOnly(a, b, used)
  {
    UnsealUses(a, b, used, a.tick + 2);
  }

  lemma UsesNone(a: Times)
    ensures Uses(a, a, {})
  {
    OpenUses(a, a, {});
  }

  /** Stamping an entry with the next tick, whatever becomes of its references, uses it. */
  lemma UsesHeld(a: Times, i: nat, e: Entry)
    requires i < |a.entries| && HeldEntry(a.entries[i], e) && e.tick == a.tick + 1
    ensures Uses(a, a.(entries := a.entries[i := e], tick := a.tick + 1), {i})
  {
    OpenUses(a, a.(entries := a.entries[i := e], tick := a.tick + 1), {i});
  }

  /** The entry that is taken next: a free one, or the one that goes before all others that can go. */
  ghost predicate GoesNext(a: Times, i: nat) {
    && i < |a.entries|
    && (a.entries[i].valid ==>
          && Evictable(a.entries[i])
          && forall j :: 0 <= j < |a.entries| && Evictable(a.entries[j]) ==>
               GoesBefore(a.protection, a.entries[i], i, a.entries[j], j))
  }

  /** Putting a new entry in the place of the one that goes next uses it. */
  lemma UsesTaken(a: Times, i: nat, e: Entry)
    requires GoesNext(a, i) && e.tick == a.tick + 1
    ensures Uses(a, a.(entries := a.entries[i := e], tick := a.tick + 1), {i})
  {
    OpenUses(a, a.(entries := a.entries[i := e], tick := a.tick + 1), {i});
  }

  /** One use after another, when no entry used first is taken over later. */
  lemma UsesChain(a: Times, b: Times, c: Times, used: set<nat>, more: set<nat>)
    requires Uses(a, b, used) && Uses(b, c, more)
    requires forall i :: i in used && i in more ==> !TakenOver(b, c, i)
    ensures Uses(a, c, used + more)
  {
    OpenUses(a, b, used);
    OpenUses(b, c, more);
    OpenUses(a, c, used + more);
    forall i | 0 <= i < |a.entries| && i in used + more
      ensures Stamped(a.entries[i], c.entries[i], a.tick, c.tick)
      ensures TakenOver(a, c, i) ==> TakenOver(a, b, i) || (i !in used && TakenOver(b, c, i))
    {
      if i in used {
        assert Stamped(a.entries[i], b.entries[i], a.tick, b.tick);
      }
      if i in more {
        assert Stamped(b.entries[i], c.entries[i], b.tick, c.tick);
      }
    }
  }

  /** What is used goes after everything in use that is left alone and has the same standing. */
  lemma UsedGoesLater(a: Times, b: Times, used: set<nat>, i: nat, j: nat)
    requires Uses(a, b, used) && i < |b.entries| && j < |b.entries| == |a.entries| && i in used && j !in used
    requires a.entries[j].tick <= a.tick && SameStanding(b.protection, b.entries[i], b.entries[j])
    ensures GoesBefore(b.protection, b.entries[j], j, b.entries[i], i)
    ensures !GoesBefore(b.protection, b.entries[i], i, b.entries[j], j)
  {
    OpenUses(a, b, used);
  }

  /** What goes next is not what was just used, as long as something else of its standing can go. */
  lemma UsedIsNotNext(a: Times, b: Times, used: set<nat>, i: nat, j: nat)
    requires Uses(a, b, used) && GoesNext(b, i) && b.entries[i].valid && j < |b.entries| == |a.entries|
    requires j !in used && Evictable(b.entries[j]) && a.entries[j].tick <= a.tick
    requires SameStanding(b.protection, b.entries[i], b.entries[j])
    ensures i !in used
  {
    if i in used {
      UsedGoesLater(a, b, used, i, j);
    }
  }

  /** Entries taken over went before every entry that could go and was left alone. */
  lemma TakenInTurn(a: Times, b: Times, used: set<nat>, i: nat, j: nat)
    requires Uses(a, b, used) && TakenOver(a, b, i) && j < |a.entries| && j !in used && Evictable(a.entries[j])
    ensures i in used && GoesBefore(a.protection, a.entries[i], i, a.entries[j], j)
  {
    OpenUses(a, b, used);
  }

  // ---- The entries a sequence holds ----------------------------------------

  /** The entries a sequence is bound to at an offset. */
  ghost function EntriesAt(v: View, sequence: nat, first: nat): set<nat> {
    set k: nat | k < |v.bindings| && At(v, k, sequence, first) :: v.bindings[k].entry
  }

  /** The entries a sequence is bound to at its first `n` blocks. */
  ghost function HeldEntries(v: View, sequence: nat, blockTokens: nat, n: nat): set<nat> {
    if n == 0 then {}
    else HeldEntries(v, sequence, blockTokens, n - 1) + EntriesAt(v, sequence, EndToken(n - 1, blockTokens))
  }

  lemma OneEntryAt(v: View, sequence: nat, first: nat, k: nat)
    requires Coherent(v) && At(v, k, sequence, first)
    ensures EntriesAt(v, sequence, first) == {v.bindings[k].entry}
  {
    OpenCoherent(v);
    forall l: nat | l < |v.bindings| && At(v, l, sequence, first) ensures l == k {
    }
  }

  /** Binding elsewhere leaves what a sequence holds at an offset. */
  lemma EntriesStay(v: View, w: View, sequence: nat, first: nat, other: nat)
    requires Grows(v, w) && OnlyAt(v, w, sequence, other) && first != other
    ensures EntriesAt(w, sequence, first) == EntriesAt(v, sequence, first)
  {
    forall k: nat | k < |v.bindings|
      ensures At(v, k, sequence, first) <==> At(w, k, sequence, first)
      ensures At(v, k, sequence, first) ==> w.bindings[k].entry == v.bindings[k].entry
    {
      assert OldBinding(v, w, k);
    }
    forall i | i in EntriesAt(v, sequence, first) ensures i in EntriesAt(w, sequence, first) {
      var k: nat :| k < |v.bindings| && At(v, k, sequence, first) && v.bindings[k].entry == i;
      assert At(w, k, sequence, first);
    }
  }

  lemma {:induction false} HeldEntriesStay(v: View, w: View, sequence: nat, blockTokens: nat, n: nat, b: nat)
    requires Grows(v, w) && OnlyAt(v, w, sequence, EndToken(b, blockTokens)) && n <= b && blockTokens > 0
    ensures HeldEntries(w, sequence, blockTokens, n) == HeldEntries(v, sequence, blockTokens, n)
  {
    if n > 0 {
      HeldEntriesStay(v, w, sequence, blockTokens, n - 1, b);
      EndTokenIncreases(n, b, blockTokens);
      EntriesStay(v, w, sequence, EndToken(n - 1, blockTokens), EndToken(b, blockTokens));
    }
  }

  lemma {:induction false} HeldIsBound(v: View, sequence: nat, blockTokens: nat, n: nat, i: nat)
    requires Coherent(v) && i in HeldEntries(v, sequence, blockTokens, n)
    ensures i < |v.entries| && v.entries[i].refs > 0
  {
    if i in EntriesAt(v, sequence, EndToken(n - 1, blockTokens)) {
      var k: nat :|
        k < |v.bindings| && At(v, k, sequence, EndToken(n - 1, blockTokens)) && v.bindings[k].entry == i;
      UsedBinding(v, k);
    } else {
      HeldIsBound(v, sequence, blockTokens, n - 1, i);
    }
  }

  /** Using what a sequence holds at its next block adds it to what has been used of the blocks before. */
  lemma UsesNextBlock(a: Times, v: View, b: Times, w: View, c: Times, sequence: nat, blockTokens: nat, n: nat)
    requires b.entries == v.entries && Coherent(v) && blockTokens > 0
    requires Uses(a, b, HeldEntries(v, sequence, blockTokens, n))
    requires Uses(b, c, EntriesAt(w, sequence, EndToken(n, blockTokens)))
    requires Grows(v, w) && OnlyAt(v, w, sequence, EndToken(n, blockTokens))
    ensures Uses(a, c, HeldEntries(w, sequence, blockTokens, n + 1))
  {
    HeldEntriesStay(v, w, sequence, blockTokens, n, n);
    forall i | i in HeldEntries(v, sequence, blockTokens, n) ensures !TakenOver(b, c, i) {
      HeldIsBound(v, sequence, blockTokens, n, i);
    }
    UsesChain(a, b, c, HeldEntries(v, sequence, blockTokens, n), EntriesAt(w, sequence, EndToken(n, blockTokens)));
  }

  // ---- The entries a probe finds -------------------------------------------

  /** The entry a probe finds for a block: the sequence's own with these hashes, or else the first to share. */
  ghost predicate IsMatch(v: View, sequence: nat, parentHash: nat, blockHash: nat, contentHash: nat, first: nat,
                          blockTokens: nat, i: nat)
  {
    || (exists k: nat ::
          && At(v, k, sequence, first) && v.bindings[k].entry == i && i < |v.entries|
          && Spells(v.entries[i], parentHash, blockHash, contentHash, first, blockTokens))
    || (&& !HasSpelled(v, sequence, parentHash, blockHash, contentHash, first, blockTokens)
        && Offers(v, i, parentHash, blockHash, contentHash, first, blockTokens)
        && forall j: nat :: j < i ==> !Offers(v, j, parentHash, blockHash, contentHash, first, blockTokens))
  }

  /** The entry a probe finds for block `b` of a prompt. */
  ghost predicate MatchedBy(v: View, h: Hasher, sequence: nat, tokens: seq<nat>, blockTokens: nat, b: nat, i: nat) {
    var block, parent := BlockTokens(tokens, blockTokens, b), ChainHash(h, tokens, blockTokens, b);
    IsMatch(v, sequence, parent, h.block(block, parent), h.content(block), EndToken(b, blockTokens), blockTokens, i)
  }

  /** `found` are the entries a probe finds for the first blocks of a prompt. */
  ghost predicate MatchedUpTo(v: View, h: Hasher, sequence: nat, tokens: seq<nat>, blockTokens: nat, found: seq<nat>) {
    forall b :: 0 <= b < |found| ==> MatchedBy(v, h, sequence, tokens, blockTokens, b, found[b])
  }

  ghost function SetOf(found: seq<nat>): set<nat> {
    set i | i in found
  }

  /** When entries were last used does not matter to what a probe finds. */
  lemma MatchIsSame(v: View, w: View, sequence: nat, parentHash: nat, blockHash: nat, contentHash: nat, first: nat,
                    blockTokens: nat, i: nat)
    requires Ticked(v, w) && IsMatch(w, sequence, parentHash, blockHash, contentHash, first, blockTokens, i)
    ensures IsMatch(v, sequence, parentHash, blockHash, contentHash, first, blockTokens, i)
  {
    forall j: nat | j < |v.entries|
      ensures Offers(v, j, parentHash, blockHash, contentHash, first, blockTokens) <==>
        Offers(w, j, parentHash, blockHash, contentHash, first, blockTokens)
      ensures Spells(v.entries[j], parentHash, blockHash, contentHash, first, blockTokens) <==>
        Spells(w.entries[j], parentHash, blockHash, contentHash, first, blockTokens)
    {
      assert TickedAt(v, w, j);
    }
    forall k: nat ensures At(v, k, sequence, first) <==> At(w, k, sequence, first) {
    }
  }

  ghost function ProbeSeal(v: View, h: Hasher, sequence: nat, tokens: seq<nat>, blockTokens: nat, found: seq<nat>,
                           a: Times, b: Times, n: nat): nat
  {
    if n > 0 then ProbeSeal(v, h, sequence, tokens, blockTokens, found, a, b, n - 1)
    else if MatchedUpTo(v, h, sequence, tokens, blockTokens, found) && Uses(a, b, SetOf(found)) then 1 else 0
  }

  /** A probe has found these entries and stamped exactly them. Sealed, as `Uses` is. */
  ghost predicate Probes(v: View, h: Hasher, sequence: nat, tokens: seq<nat>, blockTokens: nat, found: seq<nat>,
                         a: Times, b: Times)
  {
    ProbeSeal(v, h, sequence, tokens, blockTokens, found, a, b, |found| + 2) == 1
  }

  lemma {:induction false} UnsealProbes(v: View, h: Hasher, sequence: nat, tokens: seq<nat>, blockTokens: nat,
                                        found: seq<nat>, a: Times, b: Times, n: nat)
    ensures ProbeSeal(v, h, sequence, tokens, blockTokens, found, a, b, n) == 1 <==>
      MatchedUpTo(v, h, sequence, tokens, blockTokens, found) && Uses(a, b, SetOf(found))
  {
    if n > 0 {
      UnsealProbes(v, h, sequence, tokens, blockTokens, found, a, b, n - 1);
    }
  }

  lemma OpenProbes(v: View, h: Hasher, sequence: nat, tokens: seq<nat>, blockTokens: nat, found: seq<nat>,
                   a: Times, b: Times)
    ensures Probes(v, h, sequence, tokens, blockTokens, found, a, b) <==>
      MatchedUpTo(v, h, sequence, tokens, blockTokens, found) && Uses(a, b, SetOf(found))
  {
    UnsealProbes(v, h, sequence, tokens, blockTokens, found, a, b, |found| + 2);
  }

  lemma StartsProbing(v: View, h: Hasher, sequence: nat, tokens: seq<nat>, blockTokens: nat, a: Times)
    ensures Probes(v, h, sequence, tokens, blockTokens, [], a, a)
  {
    UsesNone(a);
    assert SetOf([]) == {};
    OpenProbes(v, h, sequence, tokens, blockTokens, [], a, a);
  }

  lemma ProbesOn(v: View, h: Hasher, sequence: nat, tokens: seq<nat>, blockTokens: nat, found: seq<nat>, i: nat,
                 a: Times, b: Times, c: Times)
    requires Probes(v, h, sequence, tokens, blockTokens, found, a, b) && Uses(b, c, {i}) && !TakenOver(b, c, i)
    requires MatchedBy(v, h, sequence, tokens, blockTokens, |found|, i)
    ensures Probes(v, h, sequence, tokens, blockTokens, found + [i], a, c)
  {
    OpenProbes(v, h, sequence, tokens, blockTokens, found, a, b);
    UsesChain(a, b, c, SetOf(found), {i});
    assert SetOf(found + [i]) == SetOf(found) + {i};
    OpenProbes(v, h, sequence, tokens, blockTokens, found + [i], a, c);
  }
}
