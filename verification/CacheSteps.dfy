/** The steps of the prefix cache on values: what its methods do to entries and bindings, and what each step keeps. */
module CacheSteps {
  import opened Blocks
  import opened Results
  import opened Sequences
  import opened CacheView
  import opened CacheTransactions
  import opened CachePrompts
  import opened CacheCapacity
  import opened CacheRoom
  import opened CacheStamps

  datatype CacheError = BadArgument | Full | EntryBusy | Missing | NotValidated | Conflict

  // ---- Steps ---------------------------------------------------------------

  /** A pending entry just installed. */
  function NewEntry(liveOnly: bool, tokens: nat, first: nat, physical: nat, parentHash: nat, blockHash: nat,
                    contentHash: nat, tick: nat, epoch: nat): Entry
  {
    Entry(true, true, false, liveOnly, tokens, first, physical, 0, parentHash, blockHash, contentHash, tick, epoch,
          0, 0, 0)
  }

  /** Binding `k` of the sequence names entry `i`. */
  ghost predicate Names(v: View, k: nat, sequence: nat, i: nat) {
    k < |v.bindings| && v.bindings[k].valid && v.bindings[k].sequence == sequence && v.bindings[k].entry == i
  }

  ghost predicate Releasable(v: View, k: nat) {
    && k < |v.bindings| && v.bindings[k].entry < |v.entries| && v.entries[v.bindings[k].entry].refs > 0
    && v.bindings[k].physical < |v.blocks| && v.blocks[v.bindings[k].physical].refs > 0
  }

  /** Binding is consistent: whatever the sequence has at the entry's offset is the entry, and epochs fit. */
  ghost predicate MayBind(v: View, sequence: nat, i: nat, epoch: nat) {
    && i < |v.entries|
    && (forall k: nat :: At(v, k, sequence, v.entries[i].first) ==> v.bindings[k].entry == i)
    && ((forall k: nat :: !At(v, k, sequence, v.entries[i].first)) && v.entries[i].pending ==>
        epoch == v.entries[i].reservationEpoch)
    && EpochIs(v, epoch, sequence)
  }

  /** An entry for the block at `first`, which the sequence may be bound to. */
  ghost predicate Choosable(v: View, sequence: nat, first: nat, i: nat, epoch: nat) {
    i < |v.entries| && v.entries[i].valid && v.entries[i].first == first && MayBind(v, sequence, i, epoch)
  }

  /** Entry `i` has been taken over, or taken from the free list, for `e`. */
  ghost predicate Installs(v: View, w: View, i: nat, e: Entry) {
    && i < |v.entries| && e.physical < |v.blocks|
    && if v.entries[i].valid
       then Evictable(v.entries[i]) && e.physical == v.entries[i].physical && w == Replaced(v, i, e)
       else v.freeEntries != [] && v.freeEntries[0] == i && !v.blocks[e.physical].inUse && w == Installed(v, e)
  }

  ghost predicate Binds(v: View, w: View, sequence: nat, i: nat, epoch: nat, pending: bool) {
    && i < |v.entries| && v.entries[i].physical < |v.blocks| && v.freeBindings != [] && v.freeBindings[0] < |v.bindings|
    && w == Bound(v, i, sequence, epoch, pending)
  }

  /** The sequence was bound to the entry, or now is. */
  ghost predicate Acquires(v: View, w: View, sequence: nat, i: nat, epoch: nat, pending: bool) {
    || (exists k: nat ::
          && Names(v, k, sequence, i)
          && w == v.(bindings := v.bindings[k := v.bindings[k].(pending := v.bindings[k].pending || pending)]))
    || ((forall k: nat :: !Names(v, k, sequence, i)) && Binds(v, w, sequence, i, epoch, pending))
  }

  /** Only bindings of an entry the sequence was not bound to have been added. */
  ghost predicate BindsOnly(u: View, w: View, sequence: nat, i: nat) {
    && |w.bindings| == |u.bindings|
    && forall k :: 0 <= k < |u.bindings| && !u.bindings[k].valid && w.bindings[k].valid ==>
         w.bindings[k].entry == i && forall l: nat :: !Names(u, l, sequence, i)
  }

  /** A sequence is bound to entry `i`, which is `e` but for references and last use. */
  ghost predicate HasEntry(v: View, sequence: nat, i: nat, e: Entry) {
    exists k: nat ::
      && At(v, k, sequence, e.first) && v.bindings[k].entry == i && v.bindings[k].physical == e.physical
      && i < |v.entries| && HeldEntry(e, v.entries[i])
  }

  /** Only a block that is not to be shared, and has one binding, may grow. */
  ghost predicate MayGrow(v: View, k: nat) {
    && k < |v.bindings| && v.bindings[k].entry < |v.entries|
    && v.entries[v.bindings[k].entry].liveOnly && v.entries[v.bindings[k].entry].refs == 1
  }

  /** The sequence holds a whole block at an offset, pending at the current epoch. */
  ghost predicate HoldsNew(v: View, sequence: nat, first: nat, blockTokens: nat) {
    exists k: nat ::
      At(v, k, sequence, first) && v.bindings[k].tokens == blockTokens && Held(v, k, blockTokens, v.epoch)
  }

  // ---- Facts ---------------------------------------------------------------

  lemma FreeListsAreClean(v: View)
    requires Coherent(v)
    ensures NoRepeats(v.freeEntries) && NoRepeats(v.freeBindings)
  {
    OpenCoherent(v);
  }

  /** An entry in use is not on the free list. */
  lemma NotFree(v: View, i: nat)
    requires Coherent(v) && i < |v.entries| && v.entries[i].valid
    ensures i !in v.freeEntries
  {
    OpenCoherent(v);
  }

  lemma NotFreeBinding(v: View, k: nat)
    requires Coherent(v) && k < |v.bindings| && v.bindings[k].valid
    ensures k !in v.freeBindings
  {
    OpenCoherent(v);
  }

  /** Nothing held, and every slot and block free. */
  ghost predicate IsEmpty(v: View) {
    && v.freeEntries == seq(|v.entries|, i => i) && v.freeBindings == seq(|v.bindings|, i => i)
    && (forall i :: 0 <= i < |v.entries| ==> v.entries[i] == NO_ENTRY)
    && (forall k :: 0 <= k < |v.bindings| ==> v.bindings[k] == NO_BINDING)
    && (forall p :: 0 <= p < |v.blocks| ==> v.blocks[p] == Hold(false, 0))
  }

  lemma EmptyIsCoherent(v: View)
    requires IsEmpty(v)
    ensures Coherent(v)
  {
    forall i | 0 <= i < |v.entries| ensures EntryStored(v, i) {
      assert Binders(v.bindings, i) == {};
    }
    forall i: nat ensures i in v.freeEntries <==> i < |v.entries| {
      assert i < |v.entries| ==> v.freeEntries[i] == i;
    }
    forall k: nat ensures k in v.freeBindings <==> k < |v.bindings| {
      assert k < |v.bindings| ==> v.freeBindings[k] == k;
    }
    OpenCoherent(v);
  }

  /** Nothing of an epoch exists before it begins. */
  lemma EpochIsFresh(v: View, sequence: nat)
    requires Coherent(v)
    ensures EpochIs(v.(epoch := v.epoch + 1), v.epoch + 1, sequence)
    ensures NonePending(v, v.epoch + 1)
  {
    OpenCoherent(v);
    forall k | 0 <= k < |v.bindings| ensures v.bindings[k].valid ==> v.bindings[k].epoch <= v.epoch {
      assert BindingStored(v, k);
    }
    var next := v.epoch + 1;
    forall i | 0 <= i < |v.entries| ensures !IsPendingOf(v.entries[i], next) {
      assert EntryStored(v, i);
    }
  }

  lemma NothingGrows(v: View)
    ensures Grows(v, v)
  {
  }

  lemma StillNothingAt(v: View, w: View, sequence: nat, first: nat)
    requires w.bindings == v.bindings && forall k: nat :: !At(v, k, sequence, first)
    ensures forall k: nat :: !At(w, k, sequence, first)
  {
    forall k: nat ensures !At(w, k, sequence, first) {
      assert !At(v, k, sequence, first);
    }
  }

  /** A sequence has one binding at most at an offset, so if that is another block the sequence has none. */
  lemma OwnIsAll(v: View, sequence: nat, parentHash: nat, blockHash: nat, contentHash: nat, first: nat, tokens: nat,
                 k: nat)
    requires Coherent(v) && At(v, k, sequence, first) && v.bindings[k].entry < |v.entries|
    ensures HasSpelled(v, sequence, parentHash, blockHash, contentHash, first, tokens)
            ==> Spells(v.entries[v.bindings[k].entry], parentHash, blockHash, contentHash, first, tokens)
  {
    OpenCoherent(v);
  }

  /** A sequence not bound to an entry has nothing at its offset, when whatever is there must be that entry. */
  lemma NotAtOffset(v: View, sequence: nat, i: nat, epoch: nat)
    requires MayBind(v, sequence, i, epoch)
    requires forall k :: 0 <= k < |v.bindings| ==>
      !(v.bindings[k].valid && v.bindings[k].sequence == sequence && v.bindings[k].entry == i)
    ensures forall k: nat :: !At(v, k, sequence, v.entries[i].first)
  {
  }

  // ---- Choosing an entry ---------------------------------------------------

  lemma BoundEntryIsChoosable(v: View, k: nat, sequence: nat, first: nat, epoch: nat)
    requires Coherent(v) && At(v, k, sequence, first) && EpochIs(v, epoch, sequence)
    ensures Choosable(v, sequence, first, v.bindings[k].entry, epoch)
  {
    OpenCoherent(v);
    assert BindingStored(v, k);
    forall l: nat | At(v, l, sequence, first) ensures l == k {
    }
  }

  lemma UnboundOffsetIsChoosable(v: View, sequence: nat, first: nat, i: nat, epoch: nat)
    requires i < |v.entries| && v.entries[i].valid && v.entries[i].first == first && EpochIs(v, epoch, sequence)
    requires forall k: nat :: !At(v, k, sequence, first)
    requires v.entries[i].pending ==> v.entries[i].reservationEpoch == epoch
    ensures Choosable(v, sequence, first, i, epoch)
  {
  }

  /** What one sequence has committed at an offset, another may bind if it has nothing else there. */
  lemma SharedEntryMayBind(v: View, k: nat, own: Option<nat>, source: nat, target: nat, first: nat, epoch: nat)
    requires Coherent(v) && At(v, k, source, first) && EpochIs(v, epoch, target)
    requires own.Some? ==> At(v, own.value, target, first) && v.bindings[own.value].entry == v.bindings[k].entry
    requires own.None? ==> forall l: nat :: !At(v, l, target, first)
    requires v.bindings[k].entry < |v.entries| && !v.entries[v.bindings[k].entry].pending
    ensures MayBind(v, target, v.bindings[k].entry, epoch) && v.entries[v.bindings[k].entry].first == first
  {
    OpenCoherent(v);
    assert BindingStored(v, k);
  }

  // ---- Installing and binding ----------------------------------------------

  lemma InstallsOnly(u: View, w: View, i: nat, e: Entry)
    requires Coherent(u) && Installs(u, w, i, e)
    ensures OnlyEntry(u, w, i)
  {
    OpenCoherent(u);
    assert EntryStored(u, i);
  }

  /** Installing an entry keeps the transaction, and grows the cache. */
  lemma InstallKeeps(v: View, u: View, w: View, sequence: nat, epoch: nat, i: nat, e: Entry)
    requires Coherent(v) && Coherent(u) && Kept(v, u, sequence, epoch) && EpochIs(u, epoch, sequence)
    requires Installs(u, w, i, e)
    requires IsPendingOf(e, epoch)
    ensures Kept(v, w, sequence, epoch) && EpochIs(w, epoch, sequence) && Grows(u, w)
    ensures i < |w.entries| && w.entries[i] == e
  {
    OpenCoherent(u);
    TakeoverKeeps(v, u, w, sequence, epoch, i);
    forall j | 0 <= j < |u.entries| ensures BoundEntry(u, w, j) {
      assert EntryStored(u, j);
    }
  }

  /** Binding keeps the transaction, and grows the cache by a binding at the entry's offset. */
  lemma AcquireKeeps(v: View, u: View, w: View, sequence: nat, epoch: nat, i: nat, pending: bool)
    requires Coherent(u) && Kept(v, u, sequence, epoch) && EpochIs(u, epoch, sequence)
    requires i < |u.entries| && u.entries[i].valid && Acquires(u, w, sequence, i, epoch, pending)
    ensures Kept(v, w, sequence, epoch) && EpochIs(w, epoch, sequence) && Grows(u, w)
    ensures exists k: nat ::
      At(w, k, sequence, u.entries[i].first) && w.bindings[k].entry == i
      && w.bindings[k].physical == u.entries[i].physical
    ensures i < |w.entries| && HeldEntry(u.entries[i], w.entries[i]) && OnlyAt(u, w, sequence, u.entries[i].first)
    ensures BindsOnly(u, w, sequence, i)
  {
    OpenCoherent(u);
    if (forall k: nat :: !Names(u, k, sequence, i)) && Binds(u, w, sequence, i, epoch, pending) {
      var n := u.freeBindings[0];
      assert n in u.freeBindings;
      AddingKeeps(v, u, w, sequence, epoch, n);
      assert At(w, n, sequence, u.entries[i].first);
    } else {
      var k: nat :| Names(u, k, sequence, i)
        && w == u.(bindings := u.bindings[k := u.bindings[k].(pending := u.bindings[k].pending || pending)]);
      assert BindingStored(u, k);
      TouchingKeeps(v, u, w, sequence, epoch);
      assert At(w, k, sequence, u.entries[i].first);
    }
  }

  /** Binding and stamping take no entry over. */
  lemma BindingTakesNone(u: View, m: View, w: View, sequence: nat, epoch: nat, i: nat, pending: bool)
    requires i < |u.entries| && Acquires(u, m, sequence, i, epoch, pending) && |w.entries| == |m.entries|
    requires i < |m.entries| && w == m.(entries := m.entries[i := m.entries[i].(tick := w.entries[i].tick)])
    ensures Untaken(u, w)
  {
  }

  /** Stamping an entry keeps the transaction. */
  lemma TouchKeeps(v: View, u: View, m: View, w: View, sequence: nat, epoch: nat, i: nat)
    requires Kept(v, m, sequence, epoch) && EpochIs(m, epoch, sequence) && Grows(u, m) && i < |u.entries| == |m.entries|
    requires |w.entries| == |m.entries| && w == m.(entries := m.entries[i := m.entries[i].(tick := w.entries[i].tick)])
    requires HeldEntry(u.entries[i], m.entries[i])
    requires exists k: nat ::
      At(m, k, sequence, u.entries[i].first) && m.bindings[k].entry == i
      && m.bindings[k].physical == u.entries[i].physical
    requires OnlyAt(u, m, sequence, u.entries[i].first) && BindsOnly(u, m, sequence, i)
    ensures Kept(v, w, sequence, epoch) && EpochIs(w, epoch, sequence) && Grows(u, w)
    ensures HasEntry(w, sequence, i, u.entries[i])
    ensures OnlyAt(u, w, sequence, u.entries[i].first) && BindsOnly(u, w, sequence, i)
  {
    TouchingKeeps(v, m, w, sequence, epoch);
    forall k | 0 <= k < |u.bindings| ensures OldBinding(u, w, k) {
      assert OldBinding(u, m, k);
    }
    forall j | 0 <= j < |u.entries| ensures BoundEntry(u, w, j) {
      assert BoundEntry(u, m, j);
    }
    var k: nat :| At(m, k, sequence, u.entries[i].first) && m.bindings[k].entry == i
      && m.bindings[k].physical == u.entries[i].physical;
    assert At(w, k, sequence, u.entries[i].first);
    SameBindingsOnlyAt(u, m, w, sequence, u.entries[i].first);
  }

  lemma HasEntryMeans(v: View, sequence: nat, i: nat, e: Entry)
    requires HasEntry(v, sequence, i, e)
    ensures Has(v, sequence, e.first, e.physical)
    ensures e.valid ==> HasSpelled(v, sequence, e.parentHash, e.blockHash, e.contentHash, e.first, e.tokens)
  {
    var k: nat :|
      && At(v, k, sequence, e.first) && v.bindings[k].entry == i && v.bindings[k].physical == e.physical
      && i < |v.entries| && HeldEntry(e, v.entries[i]);
    assert At(v, k, sequence, e.first);
  }

  lemma HasEntryAt(v: View, sequence: nat, i: nat, e: Entry)
    requires Coherent(v) && HasEntry(v, sequence, i, e)
    ensures EntriesAt(v, sequence, e.first) == {i}
  {
    var k: nat :|
      && At(v, k, sequence, e.first) && v.bindings[k].entry == i && v.bindings[k].physical == e.physical
      && i < |v.entries| && HeldEntry(e, v.entries[i]);
    OneEntryAt(v, sequence, e.first, k);
  }

  /** Choosing an entry for a block and binding it uses what the sequence then holds there. */
  lemma UsesChosen(a: Times, b: Times, c: Times, w: View, sequence: nat, i: nat, e: Entry, used: set<nat>)
    requires Uses(a, b, used) && used <= {i} && Uses(b, c, {i}) && !TakenOver(b, c, i)
    requires Coherent(w) && HasEntry(w, sequence, i, e)
    ensures Uses(a, c, EntriesAt(w, sequence, e.first))
  {
    HasEntryAt(w, sequence, i, e);
    UsesChain(a, b, c, used, {i});
    assert used + {i} == {i};
  }

  /** Binding an entry and stamping it uses it, and changes no other entry. */
  lemma AcquireUses(u: View, m: View, sequence: nat, epoch: nat, i: nat, pending: bool, a: Times, b: Times)
    requires i < |u.entries| && Acquires(u, m, sequence, i, epoch, pending) && |m.entries| == |u.entries|
    requires a.entries == u.entries && b.tick == a.tick + 1 && b.protection == a.protection
    requires b.entries == m.entries[i := m.entries[i].(tick := b.tick)]
    ensures Uses(a, b, {i})
  {
    UsesHeld(a, i, b.entries[i]);
    assert b.entries == a.entries[i := b.entries[i]];
  }

  /** A block newly bound is a new one, or one that may be shared. */
  lemma ReserveIsSourced(u: View, m: View, w: View, sequence: nat, first: nat, i: nat, epoch: nat, cross: bool,
                         blockTokens: nat)
    requires m.bindings == u.bindings && BindsOnly(m, w, sequence, i) && w.epoch == epoch && |w.entries| == |m.entries|
    requires Choosable(m, sequence, first, i, epoch)
    requires HeldEntry(m.entries[i], w.entries[i])
    requires (forall k: nat :: !At(u, k, sequence, first)) ==> Proper(m.entries[i], cross, epoch, blockTokens)
    ensures Sourced(u, w, cross, blockTokens)
  {
    forall k | 0 <= k < |u.bindings| ensures SourcedAt(u, w, cross, blockTokens, k) {
      if !u.bindings[k].valid && w.bindings[k].valid {
        forall l: nat ensures !At(u, l, sequence, first) {
          assert At(u, l, sequence, first) ==> At(m, l, sequence, m.entries[i].first) && Names(m, l, sequence, i);
        }
      }
    }
  }

  ghost predicate SameAt(v: View, w: View, k: nat) {
    && k < |v.bindings| && k < |w.bindings|
    && (v.bindings[k].valid ==>
          && w.bindings[k] == v.bindings[k] && v.bindings[k].entry < |v.entries| && v.bindings[k].entry < |w.entries|
          && w.entries[v.bindings[k].entry] == v.entries[v.bindings[k].entry])
  }

  /** Bindings in use, and the entries they name, are exactly as they were. */
  ghost predicate HeldSame(v: View, w: View) {
    && |w.bindings| == |v.bindings| && |w.entries| == |v.entries|
    && forall k :: 0 <= k < |v.bindings| ==> SameAt(v, w, k)
  }

  lemma HeldSameChain(u: View, v: View, w: View)
    requires HeldSame(u, v) && HeldSame(v, w)
    ensures HeldSame(u, w)
  {
    forall k | 0 <= k < |u.bindings| ensures SameAt(u, w, k) {
      assert SameAt(u, v, k) && SameAt(v, w, k);
    }
  }

  /** A new entry, bound, leaves every block that was held alone. */
  lemma AddingKeepsHeld(u: View, m: View, w: View, sequence: nat, i: nat, epoch: nat)
    requires Coherent(u) && Coherent(m) && m.bindings == u.bindings && OnlyEntry(u, m, i)
    requires Acquires(m, w, sequence, i, epoch, true) && forall k: nat :: !Names(m, k, sequence, i)
    ensures HeldSame(u, w)
  {
    NextFree(m);
    forall k | 0 <= k < |u.bindings| ensures SameAt(u, w, k) {
      if u.bindings[k].valid {
        UsedBinding(u, k);
      }
    }
  }

  // ---- Taking room ---------------------------------------------------------

  /** Installing an entry in the slot chosen takes an entry's room, exactly. */
  lemma InstallRoom(u: View, w: View, i: nat, e: Entry, n: nat)
    requires Coherent(u) && Installs(u, w, i, e) && e.pending && n > 0
    requires u.freeEntries != [] ==> i == u.freeEntries[0]
    ensures Room(u, n) <==> Spare(w, n, i)
  {
    NextFree(u);
    if u.entries[i].valid {
      ReplacedRoom(u, i, e, n);
    } else {
      InstalledRoom(u, e, n);
    }
  }

  /** Binding takes a binding's room, exactly, unless the sequence is bound to the entry already. */
  lemma AcquireRoom(u: View, w: View, sequence: nat, i: nat, epoch: nat, pending: bool, n: nat)
    requires Coherent(u) && i < |u.entries| && Acquires(u, w, sequence, i, epoch, pending)
    ensures (exists k: nat :: Names(u, k, sequence, i)) ==> (Room(u, n) <==> Room(w, n))
    ensures (forall k: nat :: !Names(u, k, sequence, i)) && n > 0 ==> (Spare(u, n, i) <==> Room(w, n - 1))
  {
    if forall k: nat :: !Names(u, k, sequence, i) {
      if n > 0 {
        BoundRoom(u, i, sequence, epoch, pending, n);
      }
    } else {
      SameRoom(u, w, n);
    }
  }

  /** A sequence is bound to the entry chosen for an offset exactly when it holds something there. */
  lemma NamesIffHeld(u: View, m: View, sequence: nat, first: nat, i: nat, epoch: nat)
    requires Coherent(m) && m.bindings == u.bindings && Choosable(m, sequence, first, i, epoch)
    ensures HoldsAt(u, sequence, first) <==> exists k: nat :: Names(m, k, sequence, i)
  {
    OpenCoherent(m);
    if k: nat :| At(u, k, sequence, first) {
      assert At(m, k, sequence, m.entries[i].first);
      assert Names(m, k, sequence, i);
    }
    if k: nat :| Names(m, k, sequence, i) {
      assert BindingStored(m, k);
      assert At(u, k, sequence, first);
    }
  }

  /** Midway through a reservation the sequence holds something at the next offset exactly when it did at the start. */
  lemma HeldAtNext(u: View, m: View, h: Hasher, sequence: nat, tokens: seq<nat>, blockTokens: nat, cross: bool,
                   list: seq<nat>)
    requires Reserving(u, m, h, sequence, tokens, blockTokens, cross, list)
    ensures HoldsAt(m, sequence, EndToken(|list|, blockTokens)) <==> HoldsAt(u, sequence, EndToken(|list|, blockTokens))
  {
    var first := EndToken(|list|, blockTokens);
    OpenReserving(u, m, h, sequence, tokens, blockTokens, cross, list);
    if k: nat :| At(m, k, sequence, first) {
      assert At(u, k, sequence, first);
    }
    if k: nat :| At(u, k, sequence, first) {
      assert OldBinding(u, m, k);
      assert At(m, k, sequence, first);
    }
  }

  /** Binding and stamping: the room that is left. */
  lemma BindRoom(u: View, m: View, w: View, sequence: nat, i: nat, epoch: nat, pending: bool, n: nat)
    requires Coherent(u) && i < |u.entries| && Acquires(u, m, sequence, i, epoch, pending)
    requires i < |m.entries| == |w.entries|
    requires w == m.(entries := m.entries[i := m.entries[i].(tick := w.entries[i].tick)])
    ensures (exists k: nat :: Names(u, k, sequence, i)) ==> (Room(u, n) <==> Room(w, n))
    ensures (forall k: nat :: !Names(u, k, sequence, i)) && n > 0 ==> (Spare(u, n, i) <==> Room(w, n - 1))
  {
    AcquireRoom(u, m, sequence, i, epoch, pending, n);
    SameRoom(m, w, n);
    if n > 0 {
      SameRoom(m, w, n - 1);
    }
  }

  // ---- Room for tokens -----------------------------------------------------

  /** A block the sequence holds fits. */
  lemma HeldFits(v: View, sequence: nat, blockTokens: nat, tokens: nat, epoch: nat, short: Option<nat>,
                 later: Option<nat>, b: nat, k: nat)
    requires Coherent(v) && FitsUpTo(v, sequence, blockTokens, tokens, epoch, short, b)
    requires (short.Some? ==> later == short)
    requires At(v, k, sequence, EndToken(b, blockTokens)) && Settled(v, k, blockTokens)
    requires v.bindings[k].tokens >= Needed(tokens, blockTokens, b) || later == Some(k)
    requires SoleIfAny(v, later, sequence)
    ensures Fitting(v, sequence, blockTokens, tokens, epoch, later, b + 1)
  {
    OpenFitting(v, sequence, blockTokens, tokens, epoch, later, b + 1);
    NothingGrows(v);
    FitsUpToStays(v, v, sequence, blockTokens, tokens, epoch, short, later, b);
    assert Held(v, k, blockTokens, epoch);
    assert Fits(v, sequence, blockTokens, tokens, epoch, later, b);
  }

  /** A block just added fits. */
  lemma AddedFits(u: View, w: View, sequence: nat, blockTokens: nat, tokens: nat, epoch: nat, short: Option<nat>,
                  b: nat)
    requires Coherent(u) && Grows(u, w) && FitsUpTo(u, sequence, blockTokens, tokens, epoch, short, b)
    requires w.epoch == epoch
    requires HoldsNew(w, sequence, EndToken(b, blockTokens), blockTokens)
    requires SoleIfAny(w, short, sequence)
    ensures Fitting(w, sequence, blockTokens, tokens, epoch, short, b + 1)
  {
    OpenFitting(w, sequence, blockTokens, tokens, epoch, short, b + 1);
    FitsUpToStays(u, w, sequence, blockTokens, tokens, epoch, short, short, b);
    var k: nat :|
      && At(w, k, sequence, EndToken(b, blockTokens)) && w.bindings[k].tokens == blockTokens
      && Held(w, k, blockTokens, w.epoch);
    assert At(w, k, sequence, EndToken(b, blockTokens));
    assert Fits(w, sequence, blockTokens, tokens, epoch, short, b);
  }

  /** The hash of the block before block `b` of a sequence, or the root of all chains. */
  ghost predicate IsHashBefore(v: View, sequence: nat, blockTokens: nat, b: nat, hash: nat) {
    if b == 0 then hash == EMPTY_PARENT
    else exists k: nat :: At(v, k, sequence, EndToken(b - 1, blockTokens)) && v.bindings[k].blockHash == hash
  }

  ghost function HashSeal(v: View, sequence: nat, blockTokens: nat, b: nat, hash: nat, depth: nat): nat {
    if depth > 0 then HashSeal(v, sequence, blockTokens, b, hash, depth - 1)
    else if IsHashBefore(v, sequence, blockTokens, b, hash) then 1 else 0
  }

  /** `IsHashBefore`, sealed behind a recursion the verifier does not unroll. */
  ghost predicate Continues(v: View, sequence: nat, blockTokens: nat, b: nat, hash: nat) {
    HashSeal(v, sequence, blockTokens, b, hash, b + 2) == 1
  }

  lemma {:induction false} UnsealHash(v: View, sequence: nat, blockTokens: nat, b: nat, hash: nat, depth: nat)
    ensures HashSeal(v, sequence, blockTokens, b, hash, depth) == 1 <==>
      IsHashBefore(v, sequence, blockTokens, b, hash)
  {
    if depth > 0 {
      UnsealHash(v, sequence, blockTokens, b, hash, depth - 1);
    }
  }

  lemma OpenContinues(v: View, sequence: nat, blockTokens: nat, b: nat, hash: nat)
    ensures Continues(v, sequence, blockTokens, b, hash) <==> IsHashBefore(v, sequence, blockTokens, b, hash)
  {
    UnsealHash(v, sequence, blockTokens, b, hash, b + 2);
  }

  lemma SpelledIsHashed(v: View, sequence: nat, parentHash: nat, blockHash: nat, contentHash: nat, tokens: nat,
                        blockTokens: nat, b: nat)
    requires Coherent(v)
    requires HasSpelled(v, sequence, parentHash, blockHash, contentHash, EndToken(b, blockTokens), tokens)
    ensures Continues(v, sequence, blockTokens, b + 1, blockHash)
  {
    OpenContinues(v, sequence, blockTokens, b + 1, blockHash);
    var first := EndToken(b, blockTokens);
    var k: nat :| At(v, k, sequence, first) && v.bindings[k].entry < |v.entries|
      && Spells(v.entries[v.bindings[k].entry], parentHash, blockHash, contentHash, first, tokens);
    UsedBinding(v, k);
  }

  lemma BlockIsAdded(u: View, m: View, w: View, sequence: nat, i: nat, epoch: nat, short: Option<nat>, blockTokens: nat)
    requires Coherent(u) && Coherent(m) && Coherent(w) && Grows(u, m) && OnlyEntry(u, m, i)
    requires SoleIfAny(u, short, sequence)
    requires Acquires(m, w, sequence, i, epoch, true) && Grows(m, w) && w.epoch == epoch && blockTokens > 0
    requires m.entries[i].valid && m.entries[i].pending && m.entries[i].tokens == blockTokens
    requires m.entries[i].reservationEpoch == epoch && HeldEntry(m.entries[i], w.entries[i])
    requires exists k: nat ::
      At(w, k, sequence, m.entries[i].first) && w.bindings[k].entry == i
      && w.bindings[k].physical == m.entries[i].physical
    ensures Grows(u, w) && SoleIfAny(w, short, sequence) && HoldsNew(w, sequence, m.entries[i].first, blockTokens)
    ensures var e := m.entries[i];
      HasSpelled(w, sequence, e.parentHash, e.blockHash, e.contentHash, e.first, blockTokens)
  {
    GrowsChain(u, m, w);
    assert OnlyEntry(u, w, i);
    if short.Some? {
      SoleStays(u, w, short.value, sequence, i);
    }
    var k: nat :| At(w, k, sequence, m.entries[i].first) && w.bindings[k].entry == i
      && w.bindings[k].physical == m.entries[i].physical;
    UsedBinding(w, k);
    assert At(w, k, sequence, m.entries[i].first);
  }

  /** If all blocks were ready, block `b` still is. */
  lemma ReadyAgain(v: View, sequence: nat, blockTokens: nat, tokens: nat, epoch: nat, b: nat)
    requires b < BlockCount(tokens, blockTokens)
    ensures ReadyUpTo(v, sequence, blockTokens, tokens, BlockCount(tokens, blockTokens)) ==>
      Ready(v.(epoch := epoch), sequence, blockTokens, tokens, b)
  {
    if ReadyUpTo(v, sequence, blockTokens, tokens, BlockCount(tokens, blockTokens)) {
      ReadyAt(v, sequence, blockTokens, tokens, BlockCount(tokens, blockTokens), b);
      ReadyAnytime(v, sequence, blockTokens, tokens, epoch, b);
    }
  }

  /** A block missing or too small is not covered; one large enough is. */
  lemma CoveredOnlyIf(v: View, sequence: nat, blockTokens: nat, tokens: nat, n: nat, b: nat, found: Option<nat>)
    requires Coherent(v) && b < n && CoveredUpTo(v, sequence, blockTokens, tokens, b)
    requires found.Some? ==> At(v, found.value, sequence, EndToken(b, blockTokens))
    requires found.None? ==> forall k: nat :: !At(v, k, sequence, EndToken(b, blockTokens))
    ensures CoveredUpTo(v, sequence, blockTokens, tokens, n) ==>
      found.Some? && v.bindings[found.value].tokens >= Needed(tokens, blockTokens, b)
    ensures found.Some? && v.bindings[found.value].tokens >= Needed(tokens, blockTokens, b) ==>
      CoveredUpTo(v, sequence, blockTokens, tokens, b + 1)
  {
    if CoveredUpTo(v, sequence, blockTokens, tokens, n) {
      CoveredAt(v, sequence, blockTokens, tokens, n, b);
      if found.Some? {
        FoundCovers(v, sequence, blockTokens, tokens, b, found.value);
      }
    }
    if found.Some? && v.bindings[found.value].tokens >= Needed(tokens, blockTokens, b) {
      assert Covers(v, sequence, blockTokens, tokens, b);
      assert CoveredUpTo(v, sequence, blockTokens, tokens, b + 1);
    }
  }

  lemma HasOneMore(v: View, sequence: nat, blockTokens: nat, list: seq<nat>, k: nat)
    requires HasAll(v, sequence, blockTokens, list) && At(v, k, sequence, EndToken(|list|, blockTokens))
    ensures HasAll(v, sequence, blockTokens, list + [v.bindings[k].physical])
  {
    assert (list + [v.bindings[k].physical])[..|list|] == list;
    assert Has(v, sequence, EndToken(|list|, blockTokens), v.bindings[k].physical);
  }

  /** A block that starts below the end of block `last - 1` ends there at the latest. */
  lemma BlockFits(b: nat, last: nat, blockTokens: nat)
    requires EndToken(b, blockTokens) < EndToken(last, blockTokens)
    ensures EndToken(b, blockTokens) + blockTokens <= EndToken(last, blockTokens)
  {
    if last <= b {
      EndTokenIncreases(last, b, blockTokens);
    } else {
      EndTokenIncreases(b + 1, last, blockTokens);
    }
  }

  /** The tokens that may be reused end between blocks, and short of the last token. */
  lemma ReusableIsWhole(n: nat, blockTokens: nat) returns (last: nat)
    requires blockTokens > 0 && n > 0
    ensures ReusableTokens(n, blockTokens) == EndToken(last, blockTokens) < n
  {
    last := if n == 1 then 0 else BlockOf(n - 1, blockTokens);
  }
}
