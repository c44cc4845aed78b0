/** What was used last goes last: a prompt just probed gives way only after everything else of its standing. */
module RecentUse {
  import opened Results
  import opened CacheTransactions
  import opened CacheStamps
  import opened CacheSteps
  import opened PrefixCache

  /** An entry used in one operation is taken over in the next only if everything else of its standing is used too. */
  lemma UsedGoesLast(a: Times, b: Times, c: Times, used: set<nat>, more: set<nat>, i: nat, j: nat)
    requires Uses(a, b, used) && Uses(b, c, more) && i in used && TakenOver(b, c, i)
    requires j < |b.entries| == |a.entries| && j !in used && Evictable(b.entries[j])
    requires a.entries[j].valid ==> a.entries[j].tick <= a.tick
    requires SameStanding(b.protection, b.entries[i], b.entries[j])
    ensures j in more
  {
    OpenUses(a, b, used);
    UsedGoesLater(a, b, used, i, j);
    if j !in more {
      TakenInTurn(b, c, more, i, j);
    }
  }

  /**
   * Probe a prompt, then reserve another: an entry found by the probe is taken over only if every other entry that
   * could go, and has the same standing, is now held by the reservation.
   */
  method ProbeThenReserve(cache: PrefixCache, sequence: nat, tokens: seq<nat>, other: nat, prompt: seq<nat>,
                          cross: bool)
    returns (probed: Result<(nat, nat), CacheError>, reserved: Result<seq<nat>, CacheError>, ghost found: seq<nat>,
             ghost between: Times)
    requires cache.Valid()
    modifies cache, cache.arena
    ensures cache.Valid()
    ensures probed.Ok? ==> Uses(old(TimesOf(cache.core)), between, SetOf(found))
    ensures reserved.Ok? ==>
      Uses(between, TimesOf(cache.core), HeldEntries(cache.State(), other, cache.blockTokens, |reserved.value|))
    ensures probed.Ok? && reserved.Ok? ==>
      forall i, j ::
        && i in found && TakenOver(between, TimesOf(cache.core), i)
        && 0 <= j < |between.entries| && j !in found && Evictable(between.entries[j])
        && SameStanding(between.protection, between.entries[i], between.entries[j])
        ==> j in HeldEntries(cache.State(), other, cache.blockTokens, |reserved.value|)
  {
    ghost var a := TimesOf(cache.core);
    GoodClock(cache.core, cache.arena.a, cache.freeEntries, cache.freeBindings);
    probed, found := cache.ProbePrompt(sequence, tokens);
    between := TimesOf(cache.core);
    reserved := cache.ReservePrompt(other, prompt, cross, 0);
    ghost var c := TimesOf(cache.core);
    if probed.Ok? && reserved.Ok? {
      ghost var held := HeldEntries(cache.State(), other, cache.blockTokens, |reserved.value|);
      forall i, j |
        && i in found && TakenOver(between, c, i) && 0 <= j < |between.entries| && j !in found
        && Evictable(between.entries[j]) && SameStanding(between.protection, between.entries[i], between.entries[j])
        ensures j in held
      {
        UsedGoesLast(a, between, c, SetOf(found), held, i, j);
      }
    }
  }
}
