/** Making room twice in an arena larger than the cache was configured for: the repeat is refused. */
module OversizedArena {
  import opened Blocks
  import opened Results
  import opened KvArena
  import opened CacheView
  import opened CachePrompts
  import opened CacheCapacity
  import opened CacheRoom
  import opened CacheSteps
  import opened CacheDemands
  import opened PrefixCache

  /** An empty cache of two entries, bindings and blocks has room for two blocks. */
  lemma EmptyCanMeet(v: View, d: Demand)
    requires IsEmpty(v) && |v.entries| == |v.bindings| == |v.blocks| == 2 && d == Demand(1, 1, 2, 1)
    ensures CanMeet(v, d)
  {
    assert BlocksOf(d) == 2;
    assert PassesAt(v, d, None, 0) && PassesAt(v, d, None, 1) && PassesUpTo(v, d, None, 1);
    assert PassesUpTo(v, d, None, BlocksOf(d));
    assert Unheld(v, 1, 1, 0, 2) == 2;
    assert FreeBlocks(v) == {0, 1};
    OpenRoom(v, 2);
  }

  /** Two blocks of a sequence are not both the first block of the arena. */
  lemma TwoBlocksAreTwo(v: View)
    requires Coherent(v)
    ensures !WithinUpTo(v, 1, 1, 1, 2)
  {
    OpenCoherent(v);
    assert EndToken(0, 1) == 0 && EndToken(1, 1) == 1;
    if WithinUpTo(v, 1, 1, 1, 2) {
      assert Within(v, 1, 1, 1, 1) && WithinUpTo(v, 1, 1, 1, 1);
      var k: nat :| At(v, k, 1, 0) && v.bindings[k].physical < 1;
      var l: nat :| At(v, l, 1, 1) && v.bindings[l].physical < 1;
      assert BindingStored(v, k) && BindingStored(v, l);
      assert Owns(v, v.bindings[k].entry, 0) && Owns(v, v.bindings[l].entry, 0);
      assert false;
    }
  }

  /**
   * An arena of two blocks under a cache told of one: room for two blocks is made once, and refused the second time.
   */
  method RepeatIsRefused(hasher: Hasher) returns (first: Result<(), CacheError>, again: Result<(), CacheError>)
    ensures first.Ok? && again.Err?
  {
    var arena := new KvArena(2, 0);
    var created := PrefixCache.Create(arena, 1, hasher, 1, 2, 1, 2);
    var cache := created.value;
    EmptyCanMeet(cache.State(), Demand(1, 1, 2, 1));
    first := cache.EnsureCapacity(1, 2);
    GoodHeads(cache.core, arena.a, cache.freeEntries, cache.freeBindings);
    assert BlockCount(2, 1) == 2;
    TwoBlocksAreTwo(cache.State());
    again := cache.EnsureCapacity(1, 2);
  }
}
