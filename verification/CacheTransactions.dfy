/** Transactions on the prefix cache: what one operation epoch may change, and what taking it back restores. */
module CacheTransactions {
  import opened CacheView

  /** May be taken over for another block of tokens. */
  predicate Evictable(e: Entry) { e.valid && !e.pending && e.refs == 0 }

  /** The entry is as it was, but for who references it and when it was used. */
  predicate HeldEntry(x: Entry, y: Entry) {
    y == x.(refs := y.refs, tick := y.tick)
  }

  /** A binding from before is kept. */
  ghost predicate OldBinding(v: View, w: View, k: nat) {
    k < |v.bindings| && k < |w.bindings| && (v.bindings[k].valid ==> SameBinding(v.bindings[k], w.bindings[k]))
  }

  /** A binding that was not there belongs to this sequence and epoch. */
  ghost predicate NewBinding(v: View, w: View, sequence: nat, epoch: nat, k: nat) {
    && k < |v.bindings| && k < |w.bindings|
    && (!v.bindings[k].valid && w.bindings[k].valid ==>
        w.bindings[k].sequence == sequence && w.bindings[k].epoch == epoch)
  }

  /** An entry that could not be evicted is kept. */
  ghost predicate OldEntry(v: View, w: View, i: nat) {
    && i < |v.entries| && i < |w.entries|
    && (v.entries[i].valid && !Evictable(v.entries[i]) ==> HeldEntry(v.entries[i], w.entries[i]))
  }

  ghost predicate IsPendingOf(e: Entry, epoch: nat) {
    e.valid && e.pending && e.reservationEpoch == epoch
  }

  /** An entry that has changed, references and last use aside, is a pending one of the epoch. */
  ghost predicate FreshEntry(v: View, w: View, epoch: nat, i: nat) {
    && i < |v.entries| && i < |w.entries|
    && (HeldEntry(v.entries[i], w.entries[i]) || IsPendingOf(w.entries[i], epoch))
  }

  /**
   * From `v`, the operation of `sequence` at `epoch` has only added bindings, and pending entries in free or evictable
   * places.
   */
  ghost predicate Kept(v: View, w: View, sequence: nat, epoch: nat) {
    && |w.entries| == |v.entries| && |w.bindings| == |v.bindings| && w.epoch == epoch > v.epoch
    && (forall k :: 0 <= k < |v.bindings| ==> OldBinding(v, w, k))
    && (forall k :: 0 <= k < |v.bindings| ==> NewBinding(v, w, sequence, epoch, k))
    && (forall i :: 0 <= i < |v.entries| ==> OldEntry(v, w, i))
    && (forall i :: 0 <= i < |v.entries| ==> FreshEntry(v, w, epoch, i))
  }

  /** Every binding of epoch `epoch` belongs to `sequence`. */
  ghost predicate EpochIs(v: View, epoch: nat, sequence: nat) {
    forall k :: 0 <= k < |v.bindings| && v.bindings[k].valid && v.bindings[k].epoch == epoch ==>
      v.bindings[k].sequence == sequence
  }

  /** An epoch belongs to one sequence. */
  lemma EpochIsOfOne(v: View, k: nat)
    requires Coherent(v) && k < |v.bindings| && v.bindings[k].valid
    ensures EpochIs(v, v.bindings[k].epoch, v.bindings[k].sequence)
  {
    OpenCoherent(v);
    forall l | 0 <= l < |v.bindings| && v.bindings[l].valid && v.bindings[l].epoch == v.bindings[k].epoch
      ensures v.bindings[l].sequence == v.bindings[k].sequence
    {
      assert SameEpoch(v, l, k);
    }
  }

  // ---- Steps of an operation -----------------------------------------------

  lemma StartKeeps(v: View, sequence: nat)
    ensures Kept(v, v.(epoch := v.epoch + 1), sequence, v.epoch + 1)
  {
  }

  /** An entry that was referenced still is. */
  lemma ReferencedStaysReferenced(v: View, w: View, sequence: nat, epoch: nat, i: nat)
    requires Coherent(v) && Coherent(w) && Kept(v, w, sequence, epoch) && i < |v.entries| && v.entries[i].refs > 0
    ensures w.entries[i].refs > 0
  {
    OpenCoherent(v);
    OpenCoherent(w);
    assert EntryStored(v, i) && EntryStored(w, i);
    var k :| k in Binders(v.bindings, i);
    assert OldBinding(v, w, k);
    CountedBinder(w.bindings, k);
  }

  /** Taking over an evictable or a free entry. */
  lemma TakeoverKeeps(v: View, u: View, w: View, sequence: nat, epoch: nat, i: nat)
    requires Coherent(v) && Coherent(u) && Kept(v, u, sequence, epoch) && i < |u.entries| == |w.entries|
    requires !u.entries[i].valid || Evictable(u.entries[i])
    requires w.bindings == u.bindings && w.epoch == u.epoch
    requires forall j :: 0 <= j < |u.entries| && j != i ==> w.entries[j] == u.entries[j]
    requires IsPendingOf(w.entries[i], epoch)
    ensures Kept(v, w, sequence, epoch)
  {
    forall k | 0 <= k < |v.bindings| ensures OldBinding(v, w, k) && NewBinding(v, w, sequence, epoch, k) {
      assert OldBinding(v, u, k) && NewBinding(v, u, sequence, epoch, k);
    }
    forall j | 0 <= j < |v.entries| ensures OldEntry(v, w, j) && FreshEntry(v, w, epoch, j) {
      assert OldEntry(v, u, j) && FreshEntry(v, u, epoch, j);
      if j == i && v.entries[i].valid && !Evictable(v.entries[i]) {
        if v.entries[i].refs > 0 {
          ReferencedStaysReferenced(v, u, sequence, epoch, i);
        }
      }
    }
  }

  /** Adding a binding of this sequence and epoch in a slot not in use. */
  lemma AddingKeeps(v: View, u: View, w: View, sequence: nat, epoch: nat, k: nat)
    requires Kept(v, u, sequence, epoch) && k < |u.bindings| == |w.bindings| && !u.bindings[k].valid
    requires w.bindings[k].sequence == sequence && w.bindings[k].epoch == epoch && w.epoch == u.epoch
    requires forall l :: 0 <= l < |u.bindings| && l != k ==> w.bindings[l] == u.bindings[l]
    requires |w.entries| == |u.entries| && forall j :: 0 <= j < |u.entries| ==> HeldEntry(u.entries[j], w.entries[j])
    ensures Kept(v, w, sequence, epoch)
  {
    forall l | 0 <= l < |v.bindings| ensures OldBinding(v, w, l) && NewBinding(v, w, sequence, epoch, l) {
      assert OldBinding(v, u, l) && NewBinding(v, u, sequence, epoch, l);
    }
    forall j | 0 <= j < |v.entries| ensures OldEntry(v, w, j) && FreshEntry(v, w, epoch, j) {
      assert OldEntry(v, u, j) && FreshEntry(v, u, epoch, j);
    }
  }

  /** Flagging bindings pending and touching entries. */
  lemma TouchingKeeps(v: View, u: View, w: View, sequence: nat, epoch: nat)
    requires Kept(v, u, sequence, epoch) && |w.bindings| == |u.bindings| && w.epoch == u.epoch
    requires forall l :: 0 <= l < |u.bindings| ==> SameBinding(u.bindings[l], w.bindings[l])
    requires |w.entries| == |u.entries| && forall j :: 0 <= j < |u.entries| ==> HeldEntry(u.entries[j], w.entries[j])
    ensures Kept(v, w, sequence, epoch)
  {
    forall l | 0 <= l < |v.bindings| ensures OldBinding(v, w, l) && NewBinding(v, w, sequence, epoch, l) {
      assert OldBinding(v, u, l) && NewBinding(v, u, sequence, epoch, l);
    }
    forall j | 0 <= j < |v.entries| ensures OldEntry(v, w, j) && FreshEntry(v, w, epoch, j) {
      assert OldEntry(v, u, j) && FreshEntry(v, u, epoch, j);
    }
  }

  // ---- Taking an operation back --------------------------------------------

  ghost predicate IsOf(b: Binding, sequence: nat, epoch: nat) {
    b.valid && b.sequence == sequence && b.epoch == epoch
  }

  ghost predicate Released(u: View, w: View, sequence: nat, epoch: nat, n: nat, k: nat) {
    && k < |u.bindings| && k < |w.bindings|
    && w.bindings[k] == if k < n && IsOf(u.bindings[k], sequence, epoch) then NO_BINDING else u.bindings[k]
  }

  /** The bindings of the epoch, up to `n`, are released; entries lose only references. */
  ghost predicate Releasing(u: View, w: View, sequence: nat, epoch: nat, n: nat) {
    && |w.bindings| == |u.bindings| && |w.entries| == |u.entries| && w.epoch == u.epoch
    && (forall k :: 0 <= k < |u.bindings| ==> Released(u, w, sequence, epoch, n, k))
    && (forall i :: 0 <= i < |u.entries| ==> w.entries[i] == u.entries[i].(refs := w.entries[i].refs))
  }

  lemma ReleaseOneMore(u: View, m: View, w: View, sequence: nat, epoch: nat, n: nat)
    requires Releasing(u, m, sequence, epoch, n) && n < |u.bindings|
    requires if IsOf(m.bindings[n], sequence, epoch)
             then && w.bindings == m.bindings[n := NO_BINDING] && |w.entries| == |m.entries| && w.epoch == m.epoch
                  && forall i :: 0 <= i < |m.entries| ==> w.entries[i] == m.entries[i].(refs := w.entries[i].refs)
             else w == m
    ensures Releasing(u, w, sequence, epoch, n + 1)
  {
    var next := n + 1;
    forall k | 0 <= k < |u.bindings| ensures Released(u, w, sequence, epoch, next, k) {
      assert Released(u, m, sequence, epoch, n, k) && Released(u, m, sequence, epoch, n, n);
    }
  }

  ghost predicate Cleared(u: View, w: View, epoch: nat, n: nat, i: nat) {
    && i < |u.entries| && i < |w.entries|
    && w.entries[i]
       == if i < n && IsPendingOf(u.entries[i], epoch) && u.entries[i].refs == 0 then NO_ENTRY else u.entries[i]
  }

  /** Unreferenced pending entries of the epoch, up to `n`, are gone. */
  ghost predicate Clearing(u: View, w: View, epoch: nat, n: nat) {
    && w.bindings == u.bindings && |w.entries| == |u.entries| && w.epoch == u.epoch
    && forall i :: 0 <= i < |u.entries| ==> Cleared(u, w, epoch, n, i)
  }

  lemma ClearOneMore(u: View, m: View, w: View, epoch: nat, n: nat)
    requires Clearing(u, m, epoch, n) && n < |u.entries|
    requires if IsPendingOf(m.entries[n], epoch) && m.entries[n].refs == 0
             then w.entries == m.entries[n := NO_ENTRY] && w.bindings == m.bindings && w.epoch == m.epoch
             else w == m
    ensures Clearing(u, w, epoch, n + 1)
  {
    var next := n + 1;
    forall i | 0 <= i < |u.entries| ensures Cleared(u, w, epoch, next, i) {
      assert Cleared(u, m, epoch, n, i) && Cleared(u, m, epoch, n, n);
    }
  }

  /** Once the bindings of an epoch are gone, its pending entries are unreferenced. */
  lemma PendingIsUnreferenced(u: View, w: View, sequence: nat, epoch: nat, i: nat)
    requires Coherent(w) && Releasing(u, w, sequence, epoch, |u.bindings|) && i < |w.entries|
    requires IsPendingOf(w.entries[i], epoch)
    requires EpochIs(u, epoch, sequence)
    ensures w.entries[i].refs == 0
  {
    OpenCoherent(w);
    assert EntryStored(w, i);
    forall k: nat ensures k !in Binders(w.bindings, i) {
      assert k < |w.bindings| ==> BindingStored(w, k) && Released(u, w, sequence, epoch, |u.bindings|, k);
    }
    assert Binders(w.bindings, i) == {};
  }

  /** A pending entry of the epoch is gone; any other keeps all but its references. */
  ghost predicate Undone(u: View, w: View, epoch: nat, i: nat) {
    && i < |u.entries| && i < |w.entries|
    && w.entries[i] == if IsPendingOf(u.entries[i], epoch) then NO_ENTRY else u.entries[i].(refs := w.entries[i].refs)
  }

  /** The operation has been taken back. */
  ghost predicate RolledBack(u: View, w: View, sequence: nat, epoch: nat) {
    && |w.bindings| == |u.bindings| && |w.entries| == |u.entries| && w.epoch == u.epoch
    && (forall k :: 0 <= k < |u.bindings| ==> Released(u, w, sequence, epoch, |u.bindings|, k))
    && (forall i :: 0 <= i < |u.entries| ==> Undone(u, w, epoch, i))
  }

  lemma RollbackIsComplete(u: View, m: View, w: View, sequence: nat, epoch: nat)
    requires Coherent(m) && Releasing(u, m, sequence, epoch, |u.bindings|) && Clearing(m, w, epoch, |m.entries|)
    requires EpochIs(u, epoch, sequence)
    ensures RolledBack(u, w, sequence, epoch)
  {
    forall k | 0 <= k < |u.bindings| ensures Released(u, w, sequence, epoch, |u.bindings|, k) {
      assert Released(u, m, sequence, epoch, |u.bindings|, k);
    }
    forall i | 0 <= i < |u.entries| ensures Undone(u, w, epoch, i) {
      assert Cleared(m, w, epoch, |m.entries|, i);
      if IsPendingOf(m.entries[i], epoch) {
        PendingIsUnreferenced(u, m, sequence, epoch, i);
      }
    }
  }

  /** A binding to entry `i` that is not of this sequence and epoch. */
  ghost predicate BindsBeyond(v: View, sequence: nat, epoch: nat, i: nat, k: nat) {
    k < |v.bindings| && v.bindings[k].valid && v.bindings[k].entry == i && !IsOf(v.bindings[k], sequence, epoch)
  }

  ghost predicate HeldBeyond(v: View, sequence: nat, epoch: nat, i: nat) {
    exists k: nat :: BindsBeyond(v, sequence, epoch, i, k)
  }

  ghost predicate WithdrawnAt(u: View, w: View, sequence: nat, epoch: nat, i: nat) {
    && i < |u.entries| && i < |w.entries|
    && w.entries[i] == if IsPendingOf(u.entries[i], epoch) && !HeldBeyond(u, sequence, epoch, i) then NO_ENTRY
                       else u.entries[i].(refs := w.entries[i].refs)
  }

  /**
   * Whoever asks: the sequence's bindings of the epoch go, and a pending entry of the epoch goes unless it is held
   * otherwise.
   */
  ghost predicate Withdrawn(u: View, w: View, sequence: nat, epoch: nat) {
    && |w.bindings| == |u.bindings| && |w.entries| == |u.entries|
    && (forall k :: 0 <= k < |u.bindings| ==> Released(u, w, sequence, epoch, |u.bindings|, k))
    && (forall i :: 0 <= i < |u.entries| ==> WithdrawnAt(u, w, sequence, epoch, i))
  }

  lemma ReferencedIffHeldBeyond(u: View, m: View, sequence: nat, epoch: nat, i: nat)
    requires Coherent(m) && Releasing(u, m, sequence, epoch, |u.bindings|) && i < |u.entries|
    ensures m.entries[i].refs > 0 <==> HeldBeyond(u, sequence, epoch, i)
  {
    OpenCoherent(m);
    assert EntryStored(m, i);
    if m.entries[i].refs > 0 {
      var k :| k in Binders(m.bindings, i);
      assert Released(u, m, sequence, epoch, |u.bindings|, k);
      assert BindsBeyond(u, sequence, epoch, i, k);
    }
    if k: nat :| BindsBeyond(u, sequence, epoch, i, k) {
      assert Released(u, m, sequence, epoch, |u.bindings|, k);
      CountedBinder(m.bindings, k);
    }
  }

  lemma RollbackWithdraws(u: View, m: View, w: View, sequence: nat, epoch: nat)
    requires Coherent(m) && Releasing(u, m, sequence, epoch, |u.bindings|) && Clearing(m, w, epoch, |m.entries|)
    ensures Withdrawn(u, w, sequence, epoch)
  {
    forall k | 0 <= k < |u.bindings| ensures Released(u, w, sequence, epoch, |u.bindings|, k) {
      assert Released(u, m, sequence, epoch, |u.bindings|, k);
    }
    forall i | 0 <= i < |u.entries| ensures WithdrawnAt(u, w, sequence, epoch, i) {
      assert Cleared(m, w, epoch, |m.entries|, i);
      ReferencedIffHeldBeyond(u, m, sequence, epoch, i);
    }
  }

  /** No entry of the epoch is pending. */
  ghost predicate NonePending(v: View, epoch: nat) {
    forall i :: 0 <= i < |v.entries| ==> !IsPendingOf(v.entries[i], epoch)
  }

  /** Everything from before the operation is as it was, and nothing of the operation is left. */
  ghost predicate Restored(v: View, w: View, epoch: nat) {
    && |w.entries| == |v.entries| && |w.bindings| == |v.bindings|
    && (forall k :: 0 <= k < |v.bindings| ==> OldBinding(v, w, k) && (w.bindings[k].valid ==> v.bindings[k].valid))
    && (forall i :: 0 <= i < |v.entries| ==> OldEntry(v, w, i))
    && (forall i :: 0 <= i < |v.entries| ==> HeldEntry(v.entries[i], w.entries[i]) || w.entries[i] == NO_ENTRY)
    && NonePending(w, epoch)
  }

  /** Cancelling frees the block of every entry the epoch had pending. */
  lemma CancelledBlocksAreFree(u: View, w: View, sequence: nat, epoch: nat, i: nat)
    requires Coherent(u) && Coherent(w) && |w.blocks| == |u.blocks| && RolledBack(u, w, sequence, epoch)
    requires i < |u.entries| && IsPendingOf(u.entries[i], epoch)
    ensures u.entries[i].physical < |w.blocks| && !w.blocks[u.entries[i].physical].inUse
  {
    OpenCoherent(u);
    OpenCoherent(w);
    var p := u.entries[i].physical;
    assert EntryStored(u, i);
    assert Undone(u, w, epoch, i);
    if w.blocks[p].inUse {
      assert Owned(w, p);
      var j: nat :| Owns(w, j, p);
      assert Undone(u, w, epoch, j);
      assert Owns(u, i, p) && Owns(u, j, p);
      assert false;
    }
  }

  /** Taking a half-done operation back restores what was there before it. */
  lemma RollbackRestores(v: View, u: View, w: View, sequence: nat, epoch: nat)
    requires Coherent(v) && Kept(v, u, sequence, epoch) && RolledBack(u, w, sequence, epoch)
    requires NonePending(v, epoch)
    ensures Restored(v, w, epoch)
  {
    OpenCoherent(v);
    forall k | 0 <= k < |v.bindings| ensures OldBinding(v, w, k) && (w.bindings[k].valid ==> v.bindings[k].valid) {
      assert BindingStored(v, k) && OldBinding(v, u, k) && NewBinding(v, u, sequence, epoch, k);
      assert Released(u, w, sequence, epoch, |u.bindings|, k);
    }
    forall i | 0 <= i < |v.entries|
      ensures OldEntry(v, w, i) && (HeldEntry(v.entries[i], w.entries[i]) || w.entries[i] == NO_ENTRY)
    {
      assert OldEntry(v, u, i) && FreshEntry(v, u, epoch, i) && Undone(u, w, epoch, i);
    }
    forall i | 0 <= i < |w.entries| ensures !IsPendingOf(w.entries[i], epoch) {
      assert Undone(u, w, epoch, i);
    }
  }

  // ---- Releasing a sequence ------------------------------------------------

  ghost predicate IsHeldBy(b: Binding, sequence: nat) {
    b.valid && b.sequence == sequence
  }

  ghost predicate LeavesAt(u: View, w: View, sequence: nat, n: nat, k: nat) {
    && k < |u.bindings| && k < |w.bindings|
    && w.bindings[k] == if k < n && IsHeldBy(u.bindings[k], sequence) then NO_BINDING else u.bindings[k]
  }

  /** The sequence's bindings, up to `n`, are released; entries lose only references. */
  ghost predicate Leaving(u: View, w: View, sequence: nat, n: nat) {
    && |w.bindings| == |u.bindings| && |w.entries| == |u.entries| && w.epoch == u.epoch
    && (forall k :: 0 <= k < |u.bindings| ==> LeavesAt(u, w, sequence, n, k))
    && (forall i :: 0 <= i < |u.entries| ==> w.entries[i] == u.entries[i].(refs := w.entries[i].refs))
  }

  lemma LeaveOneMore(u: View, m: View, w: View, sequence: nat, n: nat)
    requires Leaving(u, m, sequence, n) && n < |u.bindings|
    requires if IsHeldBy(m.bindings[n], sequence)
             then && w.bindings == m.bindings[n := NO_BINDING] && |w.entries| == |m.entries| && w.epoch == m.epoch
                  && forall i :: 0 <= i < |m.entries| ==> w.entries[i] == m.entries[i].(refs := w.entries[i].refs)
             else w == m
    ensures Leaving(u, w, sequence, n + 1)
  {
    var next := n + 1;
    forall k | 0 <= k < |u.bindings| ensures LeavesAt(u, w, sequence, next, k) {
      assert LeavesAt(u, m, sequence, n, k) && LeavesAt(u, m, sequence, n, n);
    }
  }

  ghost predicate SweepsAt(u: View, w: View, n: nat, i: nat) {
    && i < |u.entries| && i < |w.entries|
    && w.entries[i]
       == if i < n && u.entries[i].valid && !u.entries[i].reusable && u.entries[i].refs == 0 then NO_ENTRY
          else u.entries[i]
  }

  /** Unreferenced entries that are not reusable, up to `n`, are gone. */
  ghost predicate Sweeping(u: View, w: View, n: nat) {
    && w.bindings == u.bindings && |w.entries| == |u.entries| && w.epoch == u.epoch
    && forall i :: 0 <= i < |u.entries| ==> SweepsAt(u, w, n, i)
  }

  lemma SweepOneMore(u: View, m: View, w: View, n: nat)
    requires Sweeping(u, m, n) && n < |u.entries|
    requires if m.entries[n].valid && !m.entries[n].reusable && m.entries[n].refs == 0
             then w.entries == m.entries[n := NO_ENTRY] && w.bindings == m.bindings && w.epoch == m.epoch
             else w == m
    ensures Sweeping(u, w, n + 1)
  {
    var next := n + 1;
    forall i | 0 <= i < |u.entries| ensures SweepsAt(u, w, next, i) {
      assert SweepsAt(u, m, n, i) && SweepsAt(u, m, n, n);
    }
  }

  ghost predicate BindsElsewhere(v: View, sequence: nat, i: nat, k: nat) {
    k < |v.bindings| && v.bindings[k].valid && v.bindings[k].entry == i && v.bindings[k].sequence != sequence
  }

  /** A sequence other than this one is bound to entry `i`. */
  ghost predicate HeldElsewhere(v: View, sequence: nat, i: nat) {
    exists k: nat :: BindsElsewhere(v, sequence, i, k)
  }

  ghost predicate GoneUnlessHeld(u: View, w: View, sequence: nat, i: nat) {
    && i < |u.entries| && i < |w.entries|
    && w.entries[i] == if u.entries[i].valid && !u.entries[i].reusable && !HeldElsewhere(u, sequence, i) then NO_ENTRY
                       else u.entries[i].(refs := w.entries[i].refs)
  }

  /**
   * The sequence holds nothing, other bindings stay, and an entry goes exactly when no other sequence holds it and it
   * is not reusable.
   */
  ghost predicate Left(u: View, w: View, sequence: nat) {
    && |w.bindings| == |u.bindings| && |w.entries| == |u.entries|
    && (forall k :: 0 <= k < |u.bindings| ==> LeavesAt(u, w, sequence, |u.bindings|, k))
    && (forall i :: 0 <= i < |u.entries| ==> GoneUnlessHeld(u, w, sequence, i))
  }

  /** Once the sequence has left, an entry is referenced exactly when another sequence holds it. */
  lemma ReferencedIffHeldElsewhere(u: View, m: View, sequence: nat, i: nat)
    requires Coherent(m) && Leaving(u, m, sequence, |u.bindings|) && i < |u.entries|
    ensures m.entries[i].refs > 0 <==> HeldElsewhere(u, sequence, i)
  {
    OpenCoherent(m);
    assert EntryStored(m, i);
    if m.entries[i].refs > 0 {
      var k :| k in Binders(m.bindings, i);
      assert LeavesAt(u, m, sequence, |u.bindings|, k);
      assert BindsElsewhere(u, sequence, i, k);
    }
    if k: nat :| BindsElsewhere(u, sequence, i, k) {
      assert LeavesAt(u, m, sequence, |u.bindings|, k);
      CountedBinder(m.bindings, k);
    }
  }

  lemma LeavingIsComplete(u: View, m: View, w: View, sequence: nat)
    requires Coherent(m) && Leaving(u, m, sequence, |u.bindings|) && Sweeping(m, w, |m.entries|)
    ensures Left(u, w, sequence)
  {
    forall k | 0 <= k < |u.bindings| ensures LeavesAt(u, w, sequence, |u.bindings|, k) {
      assert LeavesAt(u, m, sequence, |u.bindings|, k);
    }
    forall i | 0 <= i < |u.entries| ensures GoneUnlessHeld(u, w, sequence, i) {
      assert SweepsAt(m, w, |m.entries|, i);
      ReferencedIffHeldElsewhere(u, m, sequence, i);
    }
  }

  // ---- Committing ----------------------------------------------------------

  /** What a pending entry becomes: reusable if it is a full block that may be shared, live-only otherwise. */
  function CommittedEntry(e: Entry, epoch: nat, blockTokens: nat): Entry {
    if e.tokens == blockTokens && !e.liveOnly then e.(pending := false, reusable := true, committedEpoch := epoch)
    else e.(pending := false, liveOnly := true, committedEpoch := epoch)
  }

  ghost predicate CommitsAt(u: View, w: View, epoch: nat, blockTokens: nat, n: nat, i: nat) {
    && i < |u.entries| && i < |w.entries|
    && w.entries[i]
       == if i < n && IsPendingOf(u.entries[i], epoch) then CommittedEntry(u.entries[i], epoch, blockTokens)
          else u.entries[i]
  }

  /** The pending entries of the epoch, up to `n`, are committed. */
  ghost predicate Committing(u: View, w: View, epoch: nat, blockTokens: nat, n: nat) {
    && w == u.(entries := w.entries) && |w.entries| == |u.entries|
    && forall i :: 0 <= i < |u.entries| ==> CommitsAt(u, w, epoch, blockTokens, n, i)
  }

  lemma CommitOneMore(u: View, m: View, w: View, epoch: nat, blockTokens: nat, n: nat)
    requires Committing(u, m, epoch, blockTokens, n) && n < |u.entries|
    requires if IsPendingOf(m.entries[n], epoch)
             then w == m.(entries := m.entries[n := CommittedEntry(m.entries[n], epoch, blockTokens)])
             else w == m
    ensures Committing(u, w, epoch, blockTokens, n + 1)
  {
    var next := n + 1;
    forall i | 0 <= i < |u.entries| ensures CommitsAt(u, w, epoch, blockTokens, next, i) {
      assert CommitsAt(u, m, epoch, blockTokens, n, i) && CommitsAt(u, m, epoch, blockTokens, n, n);
    }
  }

  ghost predicate SettlesAt(u: View, w: View, sequence: nat, epoch: nat, n: nat, k: nat) {
    && k < |u.bindings| && k < |w.bindings|
    && w.bindings[k]
       == if k < n && IsOf(u.bindings[k], sequence, epoch) then u.bindings[k].(pending := false) else u.bindings[k]
  }

  /** The sequence's bindings of the epoch, up to `n`, are not pending. */
  ghost predicate Settling(u: View, w: View, sequence: nat, epoch: nat, n: nat) {
    && w == u.(bindings := w.bindings) && |w.bindings| == |u.bindings|
    && forall k :: 0 <= k < |u.bindings| ==> SettlesAt(u, w, sequence, epoch, n, k)
  }

  lemma SettleOneMore(u: View, m: View, w: View, sequence: nat, epoch: nat, n: nat)
    requires Settling(u, m, sequence, epoch, n) && n < |u.bindings|
    requires if IsOf(m.bindings[n], sequence, epoch)
             then w == m.(bindings := m.bindings[n := m.bindings[n].(pending := false)])
             else w == m
    ensures Settling(u, w, sequence, epoch, n + 1)
  {
    var next := n + 1;
    forall k | 0 <= k < |u.bindings| ensures SettlesAt(u, w, sequence, epoch, next, k) {
      assert SettlesAt(u, m, sequence, epoch, n, k) && SettlesAt(u, m, sequence, epoch, n, n);
    }
  }

  /** Nothing of the epoch is pending, and nothing but flags has changed. */
  ghost predicate Committed(u: View, w: View, sequence: nat, epoch: nat, blockTokens: nat) {
    && w == u.(entries := w.entries, bindings := w.bindings) && |w.entries| == |u.entries|
    && |w.bindings| == |u.bindings|
    && (forall i :: 0 <= i < |u.entries| ==> CommitsAt(u, w, epoch, blockTokens, |u.entries|, i))
    && (forall k :: 0 <= k < |u.bindings| ==> SettlesAt(u, w, sequence, epoch, |u.bindings|, k))
    && NonePending(w, epoch)
  }

  lemma CommitIsComplete(u: View, m: View, w: View, sequence: nat, epoch: nat, blockTokens: nat)
    requires Committing(u, m, epoch, blockTokens, |u.entries|) && Settling(m, w, sequence, epoch, |m.bindings|)
    ensures Committed(u, w, sequence, epoch, blockTokens)
  {
    forall i | 0 <= i < |u.entries|
      ensures CommitsAt(u, w, epoch, blockTokens, |u.entries|, i) && !IsPendingOf(w.entries[i], epoch)
    {
      assert CommitsAt(u, m, epoch, blockTokens, |u.entries|, i);
    }
    forall k | 0 <= k < |u.bindings| ensures SettlesAt(u, w, sequence, epoch, |u.bindings|, k) {
      assert SettlesAt(m, w, sequence, epoch, |m.bindings|, k);
    }
  }

  // ---- What a reservation leaves -------------------------------------------

  ghost predicate BoundEntry(v: View, w: View, i: nat) {
    i < |v.entries| && i < |w.entries|
    && (v.entries[i].valid && v.entries[i].refs > 0 ==> HeldEntry(v.entries[i], w.entries[i]))
  }

  /** Bindings are only added, and entries that are bound keep all but references and last use. */
  ghost predicate Grows(v: View, w: View) {
    && |w.entries| == |v.entries| && |w.bindings| == |v.bindings|
    && (forall k :: 0 <= k < |v.bindings| ==> OldBinding(v, w, k))
    && (forall i :: 0 <= i < |v.entries| ==> BoundEntry(v, w, i))
  }

  lemma StaysReferenced(v: View, w: View, i: nat)
    requires Coherent(v) && Coherent(w) && Grows(v, w) && i < |v.entries| && v.entries[i].refs > 0
    ensures w.entries[i].refs > 0
  {
    OpenCoherent(v);
    OpenCoherent(w);
    assert EntryStored(v, i) && EntryStored(w, i);
    var k :| k in Binders(v.bindings, i);
    assert OldBinding(v, w, k);
    CountedBinder(w.bindings, k);
  }

  lemma GrowsChain(u: View, v: View, w: View)
    requires Coherent(u) && Coherent(v) && Grows(u, v) && Grows(v, w)
    ensures Grows(u, w)
  {
    forall k | 0 <= k < |u.bindings| ensures OldBinding(u, w, k) {
      assert OldBinding(u, v, k) && OldBinding(v, w, k);
    }
    forall i | 0 <= i < |u.entries| ensures BoundEntry(u, w, i) {
      assert BoundEntry(u, v, i) && BoundEntry(v, w, i);
      if u.entries[i].valid && u.entries[i].refs > 0 {
        StaysReferenced(u, v, i);
      }
    }
  }

  /** A sequence holds, at an offset, the block `physical`. */
  ghost predicate Has(v: View, sequence: nat, first: nat, physical: nat) {
    exists k: nat :: At(v, k, sequence, first) && v.bindings[k].physical == physical
  }

  lemma HasStays(v: View, w: View, sequence: nat, first: nat, physical: nat)
    requires Grows(v, w) && Has(v, sequence, first, physical)
    ensures Has(w, sequence, first, physical)
  {
    var k: nat :| At(v, k, sequence, first) && v.bindings[k].physical == physical;
    assert OldBinding(v, w, k);
    assert At(w, k, sequence, first);
  }

  /** Two sequences hold the same entry, of the tokens from `first` to `end`. */
  ghost predicate Shares(v: View, source: nat, target: nat, first: nat, end: nat) {
    exists k: nat, l: nat ::
      At(v, k, source, first) && At(v, l, target, first) && v.bindings[k].entry == v.bindings[l].entry
      && first + v.bindings[k].tokens == end
  }

  /** Two sequences hold the same entries, starting at `offsets`, for all tokens up to `end`. */
  ghost predicate SharedAll(v: View, source: nat, target: nat, offsets: seq<nat>, end: nat) {
    if offsets == [] then end == 0
    else
      var first := offsets[|offsets| - 1];
      SharedAll(v, source, target, offsets[..|offsets| - 1], first) && Shares(v, source, target, first, end)
  }

  lemma {:induction false} SharedAllStays(v: View, w: View, source: nat, target: nat, offsets: seq<nat>, end: nat)
    requires Grows(v, w) && SharedAll(v, source, target, offsets, end)
    ensures SharedAll(w, source, target, offsets, end)
  {
    if offsets != [] {
      var first := offsets[|offsets| - 1];
      SharedAllStays(v, w, source, target, offsets[..|offsets| - 1], first);
      var k: nat, l: nat :|
        At(v, k, source, first) && At(v, l, target, first) && v.bindings[k].entry == v.bindings[l].entry
        && first + v.bindings[k].tokens == end;
      assert OldBinding(v, w, k) && OldBinding(v, w, l);
      assert At(w, k, source, first) && At(w, l, target, first);
    }
  }

  lemma ShareOneMore(v: View, w: View, source: nat, target: nat, offsets: seq<nat>, k: nat, first: nat)
    requires Grows(v, w) && SharedAll(v, source, target, offsets, first) && At(v, k, source, first)
    requires exists l: nat :: At(w, l, target, first) && w.bindings[l].entry == v.bindings[k].entry
    ensures SharedAll(w, source, target, offsets + [first], first + v.bindings[k].tokens)
  {
    SharedAllStays(v, w, source, target, offsets, first);
    var l: nat :| At(w, l, target, first) && w.bindings[l].entry == v.bindings[k].entry;
    assert OldBinding(v, w, k);
    assert At(w, k, source, first);
    assert (offsets + [first])[..|offsets|] == offsets;
  }
}
