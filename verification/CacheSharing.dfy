/** Binding one sequence to the committed blocks of another: the outcome, block by block. */
module CacheSharing {
  import opened Results
  import opened CacheView
  import opened CacheTransactions
  import opened CachePrompts
  import opened CacheSteps

  ghost function BindingAt(v: View, sequence: nat, first: nat): (k: nat)
    requires HoldsAt(v, sequence, first)
    ensures At(v, k, sequence, first)
  {
    var k: nat :| At(v, k, sequence, first);
    k
  }

  /**
   * Sharing the block at `first` with `room` bindings left. Answers the offset after it and the bindings left then, or
   * why it fails: no block of the source that fits, a block not committed, another block of the target, or no binding.
   */
  ghost function ShareOnce(v: View, source: nat, target: nat, first: nat, limit: nat, room: nat)
    : Result<(nat, nat), CacheError>
  {
    if !HoldsAt(v, source, first) then Err(Missing)
    else
      var b := v.bindings[BindingAt(v, source, first)];
      if b.tokens == 0 || first + b.tokens > limit || b.entry >= |v.entries| then Err(Missing)
      else if v.entries[b.entry].pending then Err(EntryBusy)
      else if HoldsAt(v, target, first) then
        if v.bindings[BindingAt(v, target, first)].entry != b.entry then Err(Conflict) else Ok((first + b.tokens, room))
      else if room == 0 then Err(Full)
      else Ok((first + b.tokens, room - 1))
  }

  ghost function ShareSeal(v: View, source: nat, target: nat, first: nat, limit: nat, room: nat, n: nat)
    : Result<(nat, nat), CacheError>
  {
    if n > 0 then ShareSeal(v, source, target, first, limit, room, n - 1)
    else ShareOnce(v, source, target, first, limit, room)
  }

  /** `ShareOnce`, sealed behind a recursion the verifier does not unroll. */
  ghost function ShareStep(v: View, source: nat, target: nat, first: nat, limit: nat, room: nat)
    : Result<(nat, nat), CacheError>
  {
    ShareSeal(v, source, target, first, limit, room, room + 2)
  }

  lemma {:induction false} UnsealShare(v: View, source: nat, target: nat, first: nat, limit: nat, room: nat, n: nat)
    ensures ShareSeal(v, source, target, first, limit, room, n) == ShareOnce(v, source, target, first, limit, room)
  {
    if n > 0 {
      UnsealShare(v, source, target, first, limit, room, n - 1);
    }
  }

  lemma OpenShareStep(v: View, source: nat, target: nat, first: nat, limit: nat, room: nat)
    ensures ShareStep(v, source, target, first, limit, room) == ShareOnce(v, source, target, first, limit, room)
  {
    UnsealShare(v, source, target, first, limit, room, room + 2);
  }

  /** The step leads to `next`, with a binding fewer if the target holds nothing there, provided there is one. */
  ghost predicate Leads(v: View, source: nat, target: nat, first: nat, limit: nat, room: nat, next: nat) {
    ShareStep(v, source, target, first, limit, room)
    == if HoldsAt(v, target, first) then Ok((next, room)) else if room == 0 then Err(Full) else Ok((next, room - 1))
  }

  /** Sharing everything from `first` to `limit`: nothing, or why it fails. */
  ghost function ShareResult(v: View, source: nat, target: nat, first: nat, limit: nat,
                             room: nat): Result<(), CacheError>
    decreases limit - first
  {
    if first >= limit then Ok(())
    else
      match ShareStep(v, source, target, first, limit, room)
      case Err(e) => Err(e)
      case Ok(next) => if next.0 <= first then Err(Missing) else ShareResult(v, source, target, next.0, limit, next.1)
  }

  /** The step of the bindings found. */
  lemma ShareStepIs(v: View, source: nat, target: nat, first: nat, k: nat, own: Option<nat>)
    requires Coherent(v) && At(v, k, source, first)
    requires own.Some? ==> At(v, own.value, target, first)
    requires own.None? ==> forall l: nat :: !At(v, l, target, first)
    ensures HoldsAt(v, source, first) && BindingAt(v, source, first) == k && v.bindings[k].entry < |v.entries|
    ensures HoldsAt(v, target, first) <==> own.Some?
    ensures own.Some? ==> BindingAt(v, target, first) == own.value
  {
    OpenCoherent(v);
    assert BindingStored(v, k);
  }

  /** Midway, the next step is what it was at the start. */
  lemma ShareStepSame(v: View, w: View, source: nat, target: nat, epoch: nat, first: nat, limit: nat, room: nat)
    requires Coherent(v) && Coherent(w) && Kept(v, w, target, epoch) && GainedBelow(v, w, target, first)
    requires source != target
    ensures ShareStep(w, source, target, first, limit, room) == ShareStep(v, source, target, first, limit, room)
  {
    OpenShareStep(v, source, target, first, limit, room);
    OpenShareStep(w, source, target, first, limit, room);
    forall k: nat ensures At(w, k, source, first) <==> At(v, k, source, first) {
      assert k < |v.bindings| ==> OldBinding(v, w, k) && NewBinding(v, w, target, epoch, k);
    }
    forall k: nat ensures At(w, k, target, first) <==> At(v, k, target, first) {
      assert k < |v.bindings| ==> OldBinding(v, w, k);
    }
    assert HoldsAt(w, source, first) <==> HoldsAt(v, source, first);
    assert HoldsAt(w, target, first) <==> HoldsAt(v, target, first);
    if HoldsAt(v, source, first) {
      var k := BindingAt(v, source, first);
      var own := if HoldsAt(v, target, first) then Some(BindingAt(v, target, first)) else None;
      ShareStepIs(v, source, target, first, k, own);
      ShareStepIs(w, source, target, first, k, own);
      UsedBinding(v, k);
      assert OldBinding(v, w, k) && OldEntry(v, w, v.bindings[k].entry);
      assert own.Some? ==> OldBinding(v, w, own.value);
    }
  }

  /** The sequence is bound to the entry exactly when it holds something at the entry's offset. */
  lemma ShareNames(u: View, target: nat, i: nat, epoch: nat, first: nat)
    requires Coherent(u) && i < |u.entries| && u.entries[i].valid && u.entries[i].first == first
    requires MayBind(u, target, i, epoch)
    ensures HoldsAt(u, target, first) <==> exists k: nat :: Names(u, k, target, i)
  {
    NamesIffHeld(u, u, target, first, i, epoch);
  }

  lemma ShareFails(u: View, source: nat, target: nat, i: nat, epoch: nat, first: nat, limit: nat, next: nat)
    requires Coherent(u) && i < |u.entries| && u.entries[i].valid && u.entries[i].first == first
    requires MayBind(u, target, i, epoch)
    requires Leads(u, source, target, first, limit, |u.freeBindings|, next) && u.freeBindings == []
    requires forall k: nat :: !Names(u, k, target, i)
    ensures ShareStep(u, source, target, first, limit, |u.freeBindings|) == Err(Full)
  {
    ShareNames(u, target, i, epoch, first);
  }

  /** One more block bound is one step. */
  lemma ShareTakes(u: View, w: View, source: nat, target: nat, i: nat, epoch: nat, first: nat, limit: nat, next: nat)
    requires Coherent(u) && Acquires(u, w, target, i, epoch, false)
    requires i < |u.entries| && u.entries[i].valid && u.entries[i].first == first && MayBind(u, target, i, epoch)
    requires Leads(u, source, target, first, limit, |u.freeBindings|, next)
    ensures ShareStep(u, source, target, first, limit, |u.freeBindings|) == Ok((next, |w.freeBindings|))
  {
    ShareNames(u, target, i, epoch, first);
  }

  /** Binding keeps the transaction, and one more block is shared. */
  lemma ShareKeeps(v: View, u: View, w: View, source: nat, target: nat, epoch: nat, offsets: seq<nat>, k: nat,
                   first: nat)
    requires Coherent(u) && Kept(v, u, target, epoch) && EpochIs(u, epoch, target) && At(u, k, source, first)
    requires SharedAll(u, source, target, offsets, first)
    requires u.bindings[k].entry < |u.entries| && u.entries[u.bindings[k].entry].valid
    requires u.entries[u.bindings[k].entry].first == first
    requires Acquires(u, w, target, u.bindings[k].entry, epoch, false)
    ensures Kept(v, w, target, epoch) && EpochIs(w, epoch, target) && OnlyAt(u, w, target, first)
    ensures SharedAll(w, source, target, offsets + [first], first + u.bindings[k].tokens)
  {
    AcquireKeeps(v, u, w, target, epoch, u.bindings[k].entry, false);
    ShareOneMore(u, w, source, target, offsets, k, first);
  }
}
