/**
 * The paged block arena under the prefix cache: allocation, reference counts and
 * residency. The resident counter is exact, and trimming evicts the blocks that
 * rank lowest by reference count, last use and index.
 */
module KvArena {
  import opened Results
  import opened Sequences

  datatype Error = InvalidArgument | CapacityExceeded | Busy | NotFound

  datatype Block = Block(inUse: bool, resident: bool, refs: nat, generation: nat, lastUsed: nat)

  datatype Arena = Arena(blocks: seq<Block>, epoch: nat, residentCount: nat, capacity: nat)

  const FRESH := Block(false, false, 0, 0, 0)

  // ---- Residency counting --------------------------------------------------

  ghost function Residents(blocks: seq<Block>): set<nat> {
    set i: nat | i < |blocks| && blocks[i].resident
  }

  /** Only allocated blocks are resident, and the counter counts them, within the capacity. */
  ghost predicate ArenaOk(a: Arena) {
    && 0 < a.capacity <= |a.blocks|
    && (forall i :: 0 <= i < |a.blocks| && a.blocks[i].resident ==> a.blocks[i].inUse)
    && a.residentCount == |Residents(a.blocks)| <= a.capacity
  }

  lemma ResidentsAfterUpdate(blocks: seq<Block>, p: nat, b: Block)
    requires p < |blocks|
    ensures |Residents(blocks[p := b])|
            == |Residents(blocks)| - (if blocks[p].resident then 1 else 0) + if b.resident then 1 else 0
  {
    var before, after := Residents(blocks), Residents(blocks[p := b]);
    var rest := before - {p};
    assert before == if blocks[p].resident then rest + {p} else rest;
    assert after == if b.resident then rest + {p} else rest;
  }

  // ---- Steps ---------------------------------------------------------------

  /** Replace block `p`, at the next epoch, keeping the resident counter exact. */
  function Updated(a: Arena, p: nat, b: Block): Arena
    requires p < |a.blocks| && (a.blocks[p].resident && !b.resident ==> a.residentCount > 0)
  {
    a.(blocks := a.blocks[p := b], epoch := a.epoch + 1,
       residentCount := if a.blocks[p].resident && !b.resident then a.residentCount - 1
                        else if !a.blocks[p].resident && b.resident then a.residentCount + 1
                        else a.residentCount)
  }

  lemma UpdateKeepsOk(a: Arena, p: nat, b: Block)
    requires ArenaOk(a) && p < |a.blocks| && (b.resident ==> b.inUse)
    requires b.resident && !a.blocks[p].resident ==> a.residentCount < a.capacity
    ensures a.blocks[p].resident ==> a.residentCount > 0
    ensures ArenaOk(Updated(a, p, b))
  {
    ResidentsAfterUpdate(a.blocks, p, b);
    if a.blocks[p].resident {
      assert p in Residents(a.blocks);
    }
  }

  /** A block's rank among eviction victims: lower goes first. */
  predicate RanksBelow(x: Block, i: nat, y: Block, j: nat) {
    || x.refs < y.refs
    || (x.refs == y.refs && (x.lastUsed < y.lastUsed || (x.lastUsed == y.lastUsed && i <= j)))
  }

  /** Blocks rank by references, then by last use, then by index, and of two blocks exactly one ranks below. */
  lemma RanksAreStrict(x: Block, i: nat, y: Block, j: nat)
    requires i != j
    ensures RanksBelow(x, i, y, j) <==> !RanksBelow(y, j, x, i)
    ensures x.refs < y.refs ==> RanksBelow(x, i, y, j)
    ensures x.refs == y.refs && x.lastUsed < y.lastUsed ==> RanksBelow(x, i, y, j)
    ensures x.refs == y.refs && x.lastUsed == y.lastUsed && i < j ==> RanksBelow(x, i, y, j)
  {
  }

  /** A resident block that may be evicted. */
  predicate IsVictim(a: Arena, protected: seq<nat>, i: nat) {
    i < |a.blocks| && a.blocks[i].inUse && a.blocks[i].resident && i !in protected
  }

  /** No victim ranks below `v`. */
  ghost predicate IsLowest(a: Arena, protected: seq<nat>, v: nat) {
    && IsVictim(a, protected, v)
    && forall i :: 0 <= i && IsVictim(a, protected, i) ==> RanksBelow(a.blocks[v], v, a.blocks[i], i)
  }

  ghost predicate SameBut(a: Arena, b: Arena, protected: seq<nat>, i: nat)
    requires i < |a.blocks| == |b.blocks|
  {
    if b.blocks[i].resident == a.blocks[i].resident then b.blocks[i] == a.blocks[i]
    else
      && IsVictim(a, protected, i)
      && b.blocks[i] == a.blocks[i].(resident := false, lastUsed := b.blocks[i].lastUsed)
  }

  ghost predicate Evicted(a: Arena, b: Arena, i: nat) {
    i < |a.blocks| && i < |b.blocks| && a.blocks[i].resident && !b.blocks[i].resident
  }

  /**
   * `b` is `a` after evictions: blocks keep all but residency and last use, only unprotected residents have lost
   * residency, and each of those ranked below every unprotected block that is still resident.
   */
  ghost predicate Evicts(a: Arena, b: Arena, protected: seq<nat>) {
    && |b.blocks| == |a.blocks| && b.capacity == a.capacity
    && (forall i :: 0 <= i < |a.blocks| ==> SameBut(a, b, protected, i))
    && (forall i: nat, j: nat :: Evicted(a, b, i) && IsVictim(b, protected, j) ==>
          RanksBelow(a.blocks[i], i, a.blocks[j], j))
  }

  /** Evicting the lowest victim. */
  lemma EvictOneMore(a: Arena, b: Arena, protected: seq<nat>, v: nat)
    requires Evicts(a, b, protected) && IsLowest(b, protected, v) && ArenaOk(b)
    ensures b.residentCount > 0
    ensures var c := Updated(b, v, b.blocks[v].(resident := false, lastUsed := b.epoch + 1));
      ArenaOk(c) && Evicts(a, c, protected) && c.residentCount == b.residentCount - 1
  {
    UpdateKeepsOk(b, v, b.blocks[v].(resident := false, lastUsed := b.epoch + 1));
    var c := Updated(b, v, b.blocks[v].(resident := false, lastUsed := b.epoch + 1));
    forall i | 0 <= i < |a.blocks| ensures SameBut(a, c, protected, i) {
      assert SameBut(a, b, protected, i);
    }
    forall i: nat, j: nat | Evicted(a, c, i) && IsVictim(c, protected, j)
      ensures RanksBelow(a.blocks[i], i, a.blocks[j], j)
    {
      assert IsVictim(b, protected, j) && SameBut(a, b, protected, j) && SameBut(a, b, protected, v);
      assert i != v ==> Evicted(a, b, i);
    }
  }

  /** Residency and last use aside, the block is the same. */
  predicate SameHolding(x: Block, y: Block) {
    y.inUse == x.inUse && y.refs == x.refs && y.generation == x.generation
  }

  lemma NothingEvicted(a: Arena, protected: seq<nat>)
    ensures Evicts(a, a, protected)
  {
  }

  /** What evictions before block `p` was replaced left of the others. */
  lemma SameWithout(a: Arena, m: Arena, b: Arena, p: nat)
    requires Evicts(a, m, [p]) && p < |a.blocks| == |b.blocks| && b.capacity == m.capacity
    requires b.blocks[p := m.blocks[p]] == m.blocks && m.blocks[p] == a.blocks[p]
    ensures Evicts(a, b.(blocks := b.blocks[p := a.blocks[p]]), [p])
  {
    var c := b.(blocks := b.blocks[p := a.blocks[p]]);
    assert c.blocks == m.blocks;
    forall i | 0 <= i < |a.blocks| ensures SameBut(a, c, [p], i) {
      assert SameBut(a, m, [p], i);
    }
    forall i: nat, j: nat | Evicted(a, c, i) && IsVictim(c, [p], j) ensures RanksBelow(a.blocks[i], i, a.blocks[j], j) {
      assert Evicted(a, m, i) && IsVictim(m, [p], j);
    }
  }

  /** While the counter is not zero there is a resident block other than one that is not resident. */
  lemma SomeVictim(a: Arena, p: nat)
    requires ArenaOk(a) && a.residentCount > 0 && p < |a.blocks| && !a.blocks[p].resident
    ensures exists i :: 0 <= i && IsVictim(a, [p], i)
  {
    var i :| i in Residents(a.blocks);
    assert IsVictim(a, [p], i);
  }

  /** The resident blocks an eviction may not touch. */
  ghost function Spared(a: Arena, protected: seq<nat>): set<nat> {
    set i | i in Residents(a.blocks) && i in protected
  }

  /** Evictions leave the protected residents, and without a victim they are all that is left. */
  lemma SparedStay(a: Arena, b: Arena, protected: seq<nat>)
    requires ArenaOk(b) && Evicts(a, b, protected)
    ensures |Spared(a, protected)| <= b.residentCount
    ensures (forall i :: 0 <= i ==> !IsVictim(b, protected, i)) ==> b.residentCount == |Spared(a, protected)|
  {
    forall i | i in Spared(a, protected) ensures i in Residents(b.blocks) {
      assert SameBut(a, b, protected, i);
    }
    SubsetIsSmaller(Spared(a, protected), Residents(b.blocks));
    if forall i :: 0 <= i ==> !IsVictim(b, protected, i) {
      forall i | i in Residents(b.blocks) ensures i in Spared(a, protected) {
        assert SameBut(a, b, protected, i) && !IsVictim(b, protected, i);
      }
      assert Residents(b.blocks) == Spared(a, protected);
    }
  }

  /** How many blocks stay resident when `protected` are spared: the target, unless fewer were or more are spared. */
  ghost function Remaining(a: Arena, protected: seq<nat>, target: nat): nat {
    if a.residentCount <= target then a.residentCount
    else if |Spared(a, protected)| <= target then target
    else |Spared(a, protected)|
  }

  // ---- The arena -----------------------------------------------------------

  class KvArena {
    var a: Arena

    ghost predicate Valid()
      reads this
    {
      ArenaOk(a)
    }

    /** `blocks` free blocks; a resident capacity of zero means all of them. */
    constructor (blocks: nat, capacity: nat)
      requires blocks > 0 && capacity <= blocks
      ensures Valid() && a == Arena(seq(blocks, _ => FRESH), 0, 0, if capacity != 0 then capacity else blocks)
    {
      a := Arena(seq(blocks, _ => FRESH), 0, 0, if capacity != 0 then capacity else blocks);
      new;
      assert Residents(a.blocks) == {};
    }

    /** Free every block and start over. */
    method Reset()
      requires Valid()
      modifies this
      ensures Valid() && a == Arena(seq(|old(a).blocks|, _ => FRESH), 0, 0, old(a).capacity)
    {
      a := Arena(seq(|a.blocks|, _ => FRESH), 0, 0, a.capacity);
      assert Residents(a.blocks) == {};
    }

    /** Allocate the first free block. */
    method AcquireBlock() returns (r: Result<nat, Error>)
      requires Valid()
      modifies this
      ensures Valid()
      ensures r.Err? ==> r.error == CapacityExceeded && a == old(a) && forall i :: 0 <= i < |a.blocks| ==>
        a.blocks[i].inUse
      ensures r.Ok? ==>
        && r.value < |old(a).blocks| && !old(a).blocks[r.value].inUse
        && (forall i :: 0 <= i < r.value ==> old(a).blocks[i].inUse)
        && a == Updated(old(a), r.value,
                        Block(true, false, 0, old(a).blocks[r.value].generation + 1, old(a).epoch + 1))
    {
      for i := 0 to |a.blocks|
        invariant a == old(a) && forall k :: 0 <= k < i ==> a.blocks[k].inUse
      {
        if !a.blocks[i].inUse {
          var b := Block(true, false, 0, a.blocks[i].generation + 1, a.epoch + 1);
          UpdateKeepsOk(a, i, b);
          a := Updated(a, i, b);
          return Ok(i);
        }
      }
      return Err(CapacityExceeded);
    }

    /** Re-arm an unreferenced block: it stays allocated, no longer resident. */
    method RecycleBlock(p: nat) returns (r: Result<(), Error>)
      requires Valid()
      modifies this
      ensures Valid()
      ensures r.Ok? <==> p < |old(a).blocks| && old(a).blocks[p].inUse && old(a).blocks[p].refs == 0
      ensures r.Ok? ==>
        && (old(a).blocks[p].resident ==> old(a).residentCount > 0)
        && a == Updated(old(a), p, Block(true, false, 0, old(a).blocks[p].generation + 1, old(a).epoch + 1))
      ensures r.Err? ==> a == old(a)
    {
      if p >= |a.blocks| || !a.blocks[p].inUse {
        return Err(InvalidArgument);
      }
      if a.blocks[p].refs != 0 {
        return Err(Busy);
      }
      var b := Block(true, false, 0, a.blocks[p].generation + 1, a.epoch + 1);
      UpdateKeepsOk(a, p, b);
      a := Updated(a, p, b);
      return Ok(());
    }

    /** One more reference. */
    method RetainBlock(p: nat) returns (r: Result<(), Error>)
      requires Valid()
      modifies this
      ensures Valid()
      ensures r.Ok? <==> p < |old(a).blocks| && old(a).blocks[p].inUse
      ensures r.Ok? ==>
        a == Updated(old(a), p, old(a).blocks[p].(refs := old(a).blocks[p].refs + 1, lastUsed := old(a).epoch + 1))
      ensures r.Err? ==> a == old(a)
    {
      if p >= |a.blocks| || !a.blocks[p].inUse {
        return Err(InvalidArgument);
      }
      var b := a.blocks[p].(refs := a.blocks[p].refs + 1, lastUsed := a.epoch + 1);
      UpdateKeepsOk(a, p, b);
      a := Updated(a, p, b);
      return Ok(());
    }

    /** One reference fewer. */
    method ReleaseBlockReference(p: nat) returns (r: Result<(), Error>)
      requires Valid()
      modifies this
      ensures Valid()
      ensures r.Ok? <==> p < |old(a).blocks| && old(a).blocks[p].inUse && old(a).blocks[p].refs > 0
      ensures r.Ok? ==>
        a == Updated(old(a), p, old(a).blocks[p].(refs := old(a).blocks[p].refs - 1, lastUsed := old(a).epoch + 1))
      ensures r.Err? ==> a == old(a)
    {
      if p >= |a.blocks| || !a.blocks[p].inUse || a.blocks[p].refs == 0 {
        return Err(InvalidArgument);
      }
      var b := a.blocks[p].(refs := a.blocks[p].refs - 1, lastUsed := a.epoch + 1);
      UpdateKeepsOk(a, p, b);
      a := Updated(a, p, b);
      return Ok(());
    }

    /** Free an unreferenced block; freeing a free block does nothing. */
    method FreeBlock(p: nat) returns (r: Result<(), Error>)
      requires Valid()
      modifies this
      ensures Valid()
      ensures r.Ok? <==> p < |old(a).blocks| && (!old(a).blocks[p].inUse || old(a).blocks[p].refs == 0)
      ensures r.Ok? && !old(a).blocks[p].inUse ==> a == old(a)
      ensures r.Ok? && old(a).blocks[p].inUse ==>
        && (old(a).blocks[p].resident ==> old(a).residentCount > 0)
        && a == Updated(old(a), p, Block(false, false, 0, old(a).blocks[p].generation + 1, old(a).epoch + 1))
      ensures r.Err? ==> a == old(a)
    {
      if p >= |a.blocks| {
        return Err(InvalidArgument);
      }
      if !a.blocks[p].inUse {
        return Ok(());
      }
      if a.blocks[p].refs != 0 {
        return Err(Busy);
      }
      var b := Block(false, false, 0, a.blocks[p].generation + 1, a.epoch + 1);
      UpdateKeepsOk(a, p, b);
      a := Updated(a, p, b);
      return Ok(());
    }

    // ---- Residency -----------------------------------------------------------

    /** The unprotected resident block that ranks lowest, if there is one. */
    method SelectVictim(protected: seq<nat>) returns (v: Option<nat>)
      ensures v.Some? ==> IsLowest(a, protected, v.value)
      ensures v.None? ==> forall i :: 0 <= i ==> !IsVictim(a, protected, i)
    {
      v := None;
      for i := 0 to |a.blocks|
        invariant v.Some? ==> IsVictim(a, protected, v.value) && v.value < i
        invariant v.Some? ==> forall k :: 0 <= k < i && IsVictim(a, protected, k) ==>
          RanksBelow(a.blocks[v.value], v.value, a.blocks[k], k)
        invariant v.None? ==> forall k :: 0 <= k < i ==> !IsVictim(a, protected, k)
      {
        if IsVictim(a, protected, i) {
          if v.None? || !RanksBelow(a.blocks[v.value], v.value, a.blocks[i], i) {
            v := Some(i);
          }
        }
      }
    }

    /** Evict until `target` blocks are resident, or no victim is left. */
    method Trim(protected: seq<nat>, target: nat) returns (r: Result<nat, Error>)
      requires Valid()
      modifies this
      ensures Valid() && Evicts(old(a), a, protected)
      ensures a.residentCount == Remaining(old(a), protected, target) <= old(a).residentCount
      ensures r.Ok? <==> a.residentCount <= target
      ensures r.Ok? ==> r.value == old(a).residentCount - a.residentCount
      ensures r.Err? ==> r.error == CapacityExceeded && forall i :: 0 <= i ==> !IsVictim(a, protected, i)
      ensures old(a).residentCount <= target ==> a == old(a)
    {
      var evicted := 0;
      NothingEvicted(a, protected);
      while a.residentCount > target
        invariant Valid() && Evicts(old(a), a, protected) && evicted == old(a).residentCount - a.residentCount >= 0
        invariant old(a).residentCount <= target ==> a == old(a)
        invariant old(a).residentCount > target ==> a.residentCount >= target
        decreases a.residentCount
      {
        var v := SelectVictim(protected);
        if v.None? {
          SparedStay(old(a), a, protected);
          return Err(CapacityExceeded);
        }
        EvictOneMore(old(a), a, protected, v.value);
        a := Updated(a, v.value, a.blocks[v.value].(resident := false, lastUsed := a.epoch + 1));
        evicted := evicted + 1;
      }
      SparedStay(old(a), a, protected);
      return Ok(evicted);
    }

    /** Evict until at most `limit` blocks are resident; running out of victims is no error. */
    method EvictToLimit(limit: nat, protected: seq<nat>) returns (evicted: nat)
      requires Valid()
      modifies this
      ensures Valid() && Evicts(old(a), a, protected) && evicted == old(a).residentCount - a.residentCount
      ensures a.residentCount == Remaining(old(a), protected, limit)
      ensures a.residentCount <= limit || forall i :: 0 <= i ==> !IsVictim(a, protected, i)
    {
      var before := a.residentCount;
      var trimmed := Trim(protected, limit);
      evicted := before - a.residentCount;
    }

    /** Make room for one more resident block, which is not resident itself: this always succeeds. */
    method MakeRoom(p: nat) returns (r: Result<(), Error>)
      requires Valid() && p < |a.blocks| && !a.blocks[p].resident
      modifies this
      ensures Valid() && Evicts(old(a), a, [p]) && r.Ok?
      ensures a.residentCount == if old(a).residentCount < a.capacity then old(a).residentCount else a.capacity - 1
      ensures old(a).residentCount < old(a).capacity ==> a == old(a)
    {
      if a.residentCount + 1 <= a.capacity {
        return Ok(());
      }
      var trimmed := Trim([p], a.capacity - 1);
      assert SameBut(old(a), a, [p], p);
      if trimmed.Err? {
        SomeVictim(a, p);
        assert false;
      }
      return Ok(());
    }

    /** Make a block resident. For an allocated block this always succeeds. */
    method MarkBlockResident(p: nat) returns (r: Result<(), Error>)
      requires Valid()
      modifies this
      ensures Valid()
      ensures r.Ok? <==> p < |old(a).blocks| && old(a).blocks[p].inUse
      ensures r.Ok? ==> |a.blocks| == |old(a).blocks| && a.capacity == old(a).capacity && a.blocks[p].resident
      ensures r.Ok? ==> forall i :: 0 <= i < |a.blocks| ==> SameHolding(old(a).blocks[i], a.blocks[i])
      ensures r.Ok? ==> Evicts(old(a), a.(blocks := a.blocks[p := old(a).blocks[p]]), [p])
      ensures r.Ok? && (old(a).blocks[p].resident || old(a).residentCount < old(a).capacity) ==>
        a == Updated(old(a), p, old(a).blocks[p].(resident := true, lastUsed := a.epoch))
      ensures r.Ok? && !old(a).blocks[p].resident && old(a).residentCount == old(a).capacity ==>
        a.residentCount == a.capacity
      ensures r.Err? ==> a == old(a)
    {
      if p >= |a.blocks| || !a.blocks[p].inUse {
        return Err(InvalidArgument);
      }
      NothingEvicted(a, [p]);
      if !a.blocks[p].resident {
        r := MakeRoom(p);
        assert SameBut(old(a), a, [p], p);
        forall i | 0 <= i < |a.blocks| ensures SameHolding(old(a).blocks[i], a.blocks[i]) {
          assert SameBut(old(a), a, [p], i);
        }
      }
      var b := a.blocks[p].(resident := true, lastUsed := a.epoch + 1);
      UpdateKeepsOk(a, p, b);
      ghost var m := a;
      a := Updated(a, p, b);
      SameWithout(old(a), m, a, p);
      return Ok(());
    }

    /** Take residency from a block; no other block changes. */
    method MarkBlockNonresident(p: nat) returns (r: Result<(), Error>)
      requires Valid()
      modifies this
      ensures Valid()
      ensures r.Ok? <==> p < |old(a).blocks| && old(a).blocks[p].inUse
      ensures r.Ok? ==>
        && (old(a).blocks[p].resident ==> old(a).residentCount > 0)
        && a == Updated(old(a), p, old(a).blocks[p].(resident := false, lastUsed := old(a).epoch + 1))
      ensures r.Err? ==> a == old(a)
    {
      if p >= |a.blocks| || !a.blocks[p].inUse {
        return Err(InvalidArgument);
      }
      var b := a.blocks[p].(resident := false, lastUsed := a.epoch + 1);
      UpdateKeepsOk(a, p, b);
      a := Updated(a, p, b);
      return Ok(());
    }

    /** Trim to a limit within the capacity. */
    method TrimResidentBlocks(protected: seq<nat>, target: nat) returns (r: Result<nat, Error>)
      requires Valid()
      modifies this
      ensures Valid() && Evicts(old(a), a, protected)
      ensures target > old(a).capacity <==> r == Err(InvalidArgument)
      ensures target > old(a).capacity ==> a == old(a)
      ensures target <= old(a).capacity ==>
        a.residentCount == Remaining(old(a), protected, target) && (r.Ok? <==> a.residentCount <= target)
      ensures r.Ok? ==> r.value == old(a).residentCount - a.residentCount
      ensures r == Err(CapacityExceeded) ==> forall i :: 0 <= i ==> !IsVictim(a, protected, i)
    {
      NothingEvicted(a, protected);
      if target > a.capacity {
        return Err(InvalidArgument);
      }
      r := Trim(protected, target);
    }
  }
}
