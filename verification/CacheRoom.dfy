/** What a reservation needs of the prefix cache: free bindings, entries that are free or evictable, and free blocks. */
module CacheRoom {
  import opened Arithmetic
  import opened Sequences
  import opened Blocks
  import opened CacheView
  import opened CacheTransactions

  ghost function Evictables(v: View): set<nat> {
    set i: nat | i < |v.entries| && Evictable(v.entries[i])
  }

  ghost function FreeBlocks(v: View): set<nat> {
    set p: nat | p < |v.blocks| && !v.blocks[p].inUse
  }

  /**
   * Room for `n` more blocks: a binding for each, an entry for each that is free or evictable, and an arena block for
   * each free entry used. A free entry goes before an evictable one, even when the arena is full.
   */
  ghost predicate HasRoom(v: View, n: nat) {
    && |v.freeBindings| >= n && |v.freeEntries| + |Evictables(v)| >= n
    && |FreeBlocks(v)| >= Min(|v.freeEntries|, n)
  }

  /** Room for `n` blocks, of which one has its entry `i` but not its binding. */
  ghost predicate HasSpare(v: View, n: nat, i: nat) {
    && n > 0 && |v.freeBindings| >= n && |v.freeEntries| + |Evictables(v) - {i}| >= n - 1
    && |FreeBlocks(v)| >= Min(|v.freeEntries|, n - 1)
  }

  ghost function RoomSeal(v: View, n: nat, depth: nat): nat {
    if depth > 0 then RoomSeal(v, n, depth - 1) else if HasRoom(v, n) then 1 else 0
  }

  ghost function SpareSeal(v: View, n: nat, i: nat, depth: nat): nat {
    if depth > 0 then SpareSeal(v, n, i, depth - 1) else if HasSpare(v, n, i) then 1 else 0
  }

  /** `HasRoom`, sealed behind a recursion the verifier does not unroll. */
  ghost predicate Room(v: View, n: nat) {
    RoomSeal(v, n, v.epoch + 2) == 1
  }

  /** Sealed `HasSpare`. */
  ghost predicate Spare(v: View, n: nat, i: nat) {
    SpareSeal(v, n, i, v.epoch + 2) == 1
  }

  lemma {:induction false} UnsealRoom(v: View, n: nat, depth: nat)
    ensures RoomSeal(v, n, depth) == 1 <==> HasRoom(v, n)
  {
    if depth > 0 {
      UnsealRoom(v, n, depth - 1);
    }
  }

  lemma {:induction false} UnsealSpare(v: View, n: nat, i: nat, depth: nat)
    ensures SpareSeal(v, n, i, depth) == 1 <==> HasSpare(v, n, i)
  {
    if depth > 0 {
      UnsealSpare(v, n, i, depth - 1);
    }
  }

  lemma OpenRoom(v: View, n: nat)
    ensures Room(v, n) <==> HasRoom(v, n)
  {
    UnsealRoom(v, n, v.epoch + 2);
  }

  lemma OpenSpare(v: View, n: nat, i: nat)
    ensures Spare(v, n, i) <==> HasSpare(v, n, i)
  {
    UnsealSpare(v, n, i, v.epoch + 2);
  }

  /** There is always room for nothing, and room for some blocks is room for fewer. */
  lemma RoomForFewer(v: View, n: nat, m: nat)
    requires m <= n
    ensures Room(v, 0) && (Room(v, n) ==> Room(v, m))
  {
    OpenRoom(v, 0);
    OpenRoom(v, n);
    OpenRoom(v, m);
  }

  /** The same entries but for ticks, blocks and free lists: the same room. */
  lemma SameRoom(v: View, w: View, n: nat)
    requires w.freeBindings == v.freeBindings && w.freeEntries == v.freeEntries && w.blocks == v.blocks
    requires |w.entries| == |v.entries|
    requires forall i :: 0 <= i < |v.entries| ==> Evictable(w.entries[i]) == Evictable(v.entries[i])
    ensures Room(w, n) <==> Room(v, n)
  {
    OpenRoom(v, n);
    OpenRoom(w, n);
    assert Evictables(w) == Evictables(v);
    assert FreeBlocks(w) == FreeBlocks(v);
  }

  // ---- A new entry ---------------------------------------------------------

  ghost predicate ArenaFull(v: View) {
    forall p :: 0 <= p < |v.blocks| ==> v.blocks[p].inUse
  }

  lemma InstalledEvictables(v: View, e: Entry)
    requires Coherent(v) && v.freeEntries != [] && v.freeEntries[0] < |v.entries| && e.physical < |v.blocks|
    ensures Evictables(Installed(v, e)) - {v.freeEntries[0]} == Evictables(v)
  {
    var i := v.freeEntries[0];
    NextFree(v);
    forall k | 0 <= k < |v.entries| && k != i ensures k in Evictables(Installed(v, e)) <==> k in Evictables(v) {
    }
  }

  lemma InstalledBlocks(v: View, e: Entry)
    requires v.freeEntries != [] && v.freeEntries[0] < |v.entries| && e.physical < |v.blocks|
    requires !v.blocks[e.physical].inUse
    ensures |FreeBlocks(Installed(v, e))| == |FreeBlocks(v)| - 1
  {
    assert FreeBlocks(Installed(v, e)) == FreeBlocks(v) - {e.physical} && e.physical in FreeBlocks(v);
  }

  lemma OneFewerEntry(v: View, w: View, n: nat, i: nat)
    requires n > 0 && w.freeBindings == v.freeBindings && |w.freeEntries| == |v.freeEntries| - 1
    requires |FreeBlocks(w)| == |FreeBlocks(v)| - 1 && Evictables(w) - {i} == Evictables(v)
    ensures Room(v, n) <==> Spare(w, n, i)
  {
    OpenRoom(v, n);
    OpenSpare(w, n, i);
  }

  /** A pending entry on a free slot and a free block. */
  lemma InstalledRoom(v: View, e: Entry, n: nat)
    requires Coherent(v) && v.freeEntries != [] && v.freeEntries[0] < |v.entries| && e.pending
    requires e.physical < |v.blocks| && !v.blocks[e.physical].inUse && n > 0
    ensures Room(v, n) <==> Spare(Installed(v, e), n, v.freeEntries[0])
  {
    InstalledEvictables(v, e);
    InstalledBlocks(v, e);
    OneFewerEntry(v, Installed(v, e), n, v.freeEntries[0]);
  }

  /** A pending entry in the place of an evictable one, when no slot is free. */
  lemma ReplacedRoom(v: View, i: nat, e: Entry, n: nat)
    requires v.freeEntries == [] && i < |v.entries| && Evictable(v.entries[i]) && e.pending && n > 0
    ensures Room(v, n) <==> Spare(Replaced(v, i, e), n, i)
  {
    var w := Replaced(v, i, e);
    OpenRoom(v, n);
    OpenSpare(w, n, i);
    assert Evictables(w) - {i} == Evictables(v) - {i} && i in Evictables(v);
    assert FreeBlocks(w) == FreeBlocks(v);
  }

  /** Nothing is evictable and no slot is free, or a slot is free and the arena full: no room for a block. */
  lemma NoRoom(v: View, n: nat)
    requires n > 0
    requires if v.freeEntries == [] then forall i :: 0 <= i < |v.entries| ==> !Evictable(v.entries[i]) else ArenaFull(v)
    ensures !Room(v, n)
  {
    OpenRoom(v, n);
    if v.freeEntries == [] {
      assert Evictables(v) == {};
    } else {
      assert FreeBlocks(v) == {};
    }
  }

  /** An entry that is there already takes at most itself from what is evictable. */
  lemma FoundRoom(v: View, i: nat, n: nat)
    requires Room(v, n) && n > 0
    ensures Spare(v, n, i)
  {
    OpenRoom(v, n);
    OpenSpare(v, n, i);
    assert Evictables(v) <= (Evictables(v) - {i}) + {i};
  }

  // ---- A new binding -------------------------------------------------------

  lemma OneFewerBinding(v: View, w: View, n: nat, i: nat)
    requires n > 0 && |w.freeBindings| == |v.freeBindings| - 1 && w.freeEntries == v.freeEntries
    requires FreeBlocks(w) == FreeBlocks(v) && Evictables(w) == Evictables(v) - {i}
    ensures Spare(v, n, i) <==> Room(w, n - 1)
  {
    OpenSpare(v, n, i);
    OpenRoom(w, n - 1);
  }

  lemma BoundRoom(v: View, i: nat, sequence: nat, epoch: nat, pending: bool, n: nat)
    requires i < |v.entries| && v.entries[i].physical < |v.blocks| && v.freeBindings != []
    requires v.freeBindings[0] < |v.bindings| && n > 0
    ensures Spare(v, n, i) <==> Room(Bound(v, i, sequence, epoch, pending), n - 1)
  {
    var w := Bound(v, i, sequence, epoch, pending);
    assert Evictables(w) == Evictables(v) - {i};
    assert FreeBlocks(w) == FreeBlocks(v);
    OneFewerBinding(v, w, n, i);
  }

  lemma NoSpare(v: View, i: nat, n: nat)
    requires v.freeBindings == []
    ensures !Spare(v, n, i)
  {
    OpenSpare(v, n, i);
  }

  // ---- What is missing -----------------------------------------------------

  /** How many of the blocks from `b` to `n` the sequence holds nothing at. */
  ghost function Unheld(v: View, sequence: nat, blockTokens: nat, b: nat, n: nat): nat
    decreases n - b
  {
    if b >= n then 0
    else Unheld(v, sequence, blockTokens, b + 1, n) + if HoldsAt(v, sequence, EndToken(b, blockTokens)) then 0 else 1
  }

  lemma {:induction false} UnheldFewer(v: View, sequence: nat, blockTokens: nat, b: nat, n: nat, m: nat)
    requires n <= m
    ensures Unheld(v, sequence, blockTokens, b, n) <= Unheld(v, sequence, blockTokens, b, m)
    decreases m - b
  {
    if b < m {
      UnheldFewer(v, sequence, blockTokens, b + 1, n, m);
    }
  }

  lemma {:induction false} UnheldSame(v: View, w: View, sequence: nat, blockTokens: nat, b: nat, n: nat)
    requires w.bindings == v.bindings
    ensures Unheld(w, sequence, blockTokens, b, n) == Unheld(v, sequence, blockTokens, b, n)
    decreases n - b
  {
    if b < n {
      UnheldSame(v, w, sequence, blockTokens, b + 1, n);
      var first := EndToken(b, blockTokens);
      forall k: nat ensures At(w, k, sequence, first) <==> At(v, k, sequence, first) {
      }
      assert HoldsAt(w, sequence, first) <==> HoldsAt(v, sequence, first);
    }
  }

  /** A commit takes no room. */
  lemma CommittedRoom(v: View, w: View, sequence: nat, epoch: nat, blockTokens: nat, n: nat)
    requires Committed(v, w, sequence, epoch, blockTokens) && Room(v, n)
    ensures Room(w, n)
  {
    OpenRoom(v, n);
    OpenRoom(w, n);
    forall i | i in Evictables(v) ensures i in Evictables(w) {
      assert CommitsAt(v, w, epoch, blockTokens, |v.entries|, i);
    }
    SubsetIsSmaller(Evictables(v), Evictables(w));
    assert FreeBlocks(w) == FreeBlocks(v);
  }

  // ---- Room while a prompt is reserved -------------------------------------

  /**
   * From `u` to `w`, blocks up to `b` of `n` are reserved: room for all and `extra` leaves room for the rest and
   * `extra`.
   */
  ghost predicate Tallies(u: View, w: View, sequence: nat, blockTokens: nat, b: nat, n: nat, cross: bool, extra: nat) {
    var needed, left := Unheld(u, sequence, blockTokens, 0, n) + extra, Unheld(u, sequence, blockTokens, b, n) + extra;
    (Room(u, needed) ==> Room(w, left)) && (!cross && Room(w, left) ==> Room(u, needed))
  }

  ghost function TallySeal(u: View, w: View, sequence: nat, blockTokens: nat, b: nat, n: nat, cross: bool, extra: nat,
                           depth: nat): nat
  {
    if depth > 0 then TallySeal(u, w, sequence, blockTokens, b, n, cross, extra, depth - 1)
    else if Tallies(u, w, sequence, blockTokens, b, n, cross, extra) then 1 else 0
  }

  /** `Tallies`, sealed behind a recursion the verifier does not unroll. */
  ghost predicate Tally(u: View, w: View, sequence: nat, blockTokens: nat, b: nat, n: nat, cross: bool, extra: nat) {
    TallySeal(u, w, sequence, blockTokens, b, n, cross, extra, b + 2) == 1
  }

  lemma {:induction false} OpenTally(u: View, w: View, sequence: nat, blockTokens: nat, b: nat, n: nat, cross: bool,
                                     extra: nat, depth: nat)
    ensures TallySeal(u, w, sequence, blockTokens, b, n, cross, extra, depth) == 1 <==>
      Tallies(u, w, sequence, blockTokens, b, n, cross, extra)
  {
    if depth > 0 {
      OpenTally(u, w, sequence, blockTokens, b, n, cross, extra, depth - 1);
    }
  }

  lemma TallyStarts(u: View, sequence: nat, blockTokens: nat, n: nat, cross: bool, extra: nat)
    ensures Tally(u, u, sequence, blockTokens, 0, n, cross, extra)
  {
    OpenTally(u, u, sequence, blockTokens, 0, n, cross, extra, 2);
  }

  /** What reserving block `b` needs, and what the blocks after it need. */
  lemma TallySteps(u: View, m: View, w: View, sequence: nat, blockTokens: nat, b: nat, n: nat, cross: bool, extra: nat,
                   rest: nat, ok: bool)
    requires Tally(u, m, sequence, blockTokens, b, n, cross, extra) && b < n
    requires rest == Unheld(u, sequence, blockTokens, b + 1, n) + extra
    requires var room := rest + if HoldsAt(u, sequence, EndToken(b, blockTokens)) then 0 else 1;
      (Room(m, room) ==> ok && Room(w, rest)) && (!cross && ok && Room(w, rest) ==> Room(m, room))
    ensures ok ==> Tally(u, w, sequence, blockTokens, b + 1, n, cross, extra)
    ensures !ok ==> !Room(u, Unheld(u, sequence, blockTokens, 0, n) + extra)
  {
    OpenTally(u, m, sequence, blockTokens, b, n, cross, extra, b + 2);
    OpenTally(u, w, sequence, blockTokens, b + 1, n, cross, extra, b + 3);
  }

  lemma TallyEnds(u: View, w: View, sequence: nat, blockTokens: nat, n: nat, cross: bool, extra: nat)
    requires Tally(u, w, sequence, blockTokens, n, n, cross, extra)
    ensures Room(u, Unheld(u, sequence, blockTokens, 0, n) + extra) ==> Room(w, extra)
    ensures !cross && extra == 0 ==> Room(u, Unheld(u, sequence, blockTokens, 0, n))
  {
    OpenTally(u, w, sequence, blockTokens, n, n, cross, extra, n + 2);
    RoomForFewer(w, 0, 0);
  }
}
