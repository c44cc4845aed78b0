/**
 * The prefix cache as values: entries, the sequence bindings that reference them,
 * and the arena blocks they own. `PrefixCache` refines these steps.
 */
module CacheView {
  import opened Sequences

  /** One cached block of tokens. */
  datatype Entry = Entry(
    valid: bool,
    pending: bool,
    reusable: bool,
    liveOnly: bool,
    tokens: nat,
    first: nat,
    physical: nat,
    refs: nat,
    parentHash: nat,
    blockHash: nat,
    contentHash: nat,
    tick: nat,
    reservationEpoch: nat,
    committedEpoch: nat,
    priority: nat,
    lookaheadEpoch: nat)

  /** One reference of a sequence to an entry. */
  datatype Binding = Binding(
    valid: bool,
    pending: bool,
    entry: nat,
    first: nat,
    tokens: nat,
    physical: nat,
    sequence: nat,
    parentHash: nat,
    blockHash: nat,
    epoch: nat)

  /** "No entry" and "no block": `u32::MAX`. */
  const NONE := 0xFFFF_FFFF
  const NO_ENTRY := Entry(false, false, false, false, 0, 0, NONE, 0, 0, 0, 0, 0, 0, 0, 0, 0)
  const NO_BINDING := Binding(false, false, NONE, 0, 0, NONE, 0, 0, 0, 0)

  /** What the cache knows of an arena block. */
  datatype Hold = Hold(inUse: bool, refs: nat)

  datatype View = View(
    entries: seq<Entry>,
    bindings: seq<Binding>,
    blocks: seq<Hold>,
    freeEntries: seq<nat>,
    freeBindings: seq<nat>,
    epoch: nat)

  // ---- Counting references -------------------------------------------------

  ghost function Binders(bindings: seq<Binding>, i: nat): set<nat> {
    set k: nat | k < |bindings| && bindings[k].valid && bindings[k].entry == i
  }

  /** The number of bindings to entry `i`. */
  ghost function BindCount(bindings: seq<Binding>, i: nat): nat {
    |Binders(bindings, i)|
  }

  ghost function Hit(b: Binding, i: nat): nat {
    if b.valid && b.entry == i then 1 else 0
  }

  lemma CountAfterUpdate(bindings: seq<Binding>, k: nat, b: Binding, i: nat)
    requires k < |bindings|
    ensures BindCount(bindings[k := b], i) == BindCount(bindings, i) - Hit(bindings[k], i) + Hit(b, i)
  {
    var before, after := Binders(bindings, i), Binders(bindings[k := b], i);
    var rest := before - {k};
    assert before == if Hit(bindings[k], i) == 1 then rest + {k} else rest;
    assert after == if Hit(b, i) == 1 then rest + {k} else rest;
  }

  lemma CountedBinder(bindings: seq<Binding>, k: nat)
    requires k < |bindings| && bindings[k].valid
    ensures BindCount(bindings, bindings[k].entry) > 0
  {
    assert k in Binders(bindings, bindings[k].entry);
  }

  // ---- What must agree -----------------------------------------------------

  /** An entry in use owns an arena block, and both count its bindings. A pending one is of an epoch that has begun. */
  ghost predicate EntryStored(v: View, i: nat) {
    && i < |v.entries|
    && var e := v.entries[i];
       && e.refs == BindCount(v.bindings, i)
       && (e.valid ==> e.physical < |v.blocks| && v.blocks[e.physical].inUse && v.blocks[e.physical].refs == e.refs)
       && (!e.valid ==> e.refs == 0)
       && (e.valid && e.pending ==> e.reservationEpoch <= v.epoch)
  }

  /** A binding in use copies its entry, and dates from the entry's reservation while that is pending. */
  ghost predicate BindingStored(v: View, k: nat) {
    && k < |v.bindings|
    && var b := v.bindings[k];
       b.valid ==>
         && b.entry < |v.entries| && b.epoch <= v.epoch
         && var e := v.entries[b.entry];
            && e.valid && b.first == e.first && b.tokens == e.tokens && b.physical == e.physical
            && b.blockHash == e.blockHash
            && (e.pending ==> b.epoch == e.reservationEpoch)
  }

  ghost predicate Owns(v: View, i: nat, p: nat) {
    i < |v.entries| && v.entries[i].valid && v.entries[i].physical == p
  }

  ghost predicate Owned(v: View, p: nat) {
    exists i: nat :: Owns(v, i, p)
  }

  /** Entries and blocks in use are in bijection. */
  ghost predicate Bijective(v: View) {
    && (forall i: nat, j: nat, p: nat :: Owns(v, i, p) && Owns(v, j, p) ==> i == j)
    && (forall p :: 0 <= p < |v.blocks| && v.blocks[p].inUse ==> Owned(v, p))
  }

  /** The free lists hold exactly the slots not in use, once each. */
  ghost predicate FreeExact(v: View) {
    && NoRepeats(v.freeEntries) && NoRepeats(v.freeBindings)
    && (forall i: nat :: i in v.freeEntries <==> i < |v.entries| && !v.entries[i].valid)
    && (forall k: nat :: k in v.freeBindings <==> k < |v.bindings| && !v.bindings[k].valid)
  }

  ghost predicate At(v: View, k: nat, sequence: nat, first: nat) {
    k < |v.bindings| && v.bindings[k].valid && v.bindings[k].sequence == sequence && v.bindings[k].first == first
  }

  ghost predicate HoldsAt(v: View, sequence: nat, first: nat) {
    exists k: nat :: At(v, k, sequence, first)
  }

  ghost predicate SameEpoch(v: View, k: nat, l: nat) {
    && k < |v.bindings| && l < |v.bindings| && v.bindings[k].valid && v.bindings[l].valid
    && v.bindings[k].epoch == v.bindings[l].epoch
  }

  /** A sequence has at most one binding at each offset, and an epoch belongs to one sequence. */
  ghost predicate Orderly(v: View) {
    && (forall k: nat, l: nat, s: nat, f: nat :: At(v, k, s, f) && At(v, l, s, f) ==> k == l)
    && (forall k: nat, l: nat :: SameEpoch(v, k, l) ==> v.bindings[k].sequence == v.bindings[l].sequence)
  }

  ghost predicate Stored(v: View) {
    && (forall i :: 0 <= i < |v.entries| ==> EntryStored(v, i))
    && (forall k :: 0 <= k < |v.bindings| ==> BindingStored(v, k))
  }

  ghost predicate Consistent(v: View) {
    Stored(v) && Bijective(v) && FreeExact(v) && Orderly(v)
  }

  // ---- Steps ---------------------------------------------------------------

  /** A binding of the sequence to entry `i`, as the entry has it. */
  function BindingFor(e: Entry, i: nat, sequence: nat, epoch: nat, pending: bool): Binding {
    Binding(true, pending, i, e.first, e.tokens, e.physical, sequence, e.parentHash, e.blockHash, epoch)
  }

  /** The next free binding takes a reference to entry `i`. */
  function Bound(v: View, i: nat, sequence: nat, epoch: nat, pending: bool): View
    requires i < |v.entries| && v.entries[i].physical < |v.blocks| && v.freeBindings != []
    requires v.freeBindings[0] < |v.bindings|
  {
    var e := v.entries[i];
    var k := v.freeBindings[0];
    v.(bindings := v.bindings[k := BindingFor(e, i, sequence, epoch, pending)],
       entries := v.entries[i := e.(refs := e.refs + 1)],
       blocks := v.blocks[e.physical := v.blocks[e.physical].(refs := v.blocks[e.physical].refs + 1)],
       freeBindings := v.freeBindings[1..])
  }

  /** Binding `k` gives its reference up. */
  function Unbound(v: View, k: nat): View
    requires k < |v.bindings| && v.bindings[k].entry < |v.entries| && v.entries[v.bindings[k].entry].refs > 0
    requires v.bindings[k].physical < |v.blocks| && v.blocks[v.bindings[k].physical].refs > 0
  {
    var b := v.bindings[k];
    var e := v.entries[b.entry];
    v.(bindings := v.bindings[k := NO_BINDING], entries := v.entries[b.entry := e.(refs := e.refs - 1)],
       blocks := v.blocks[b.physical := v.blocks[b.physical].(refs := v.blocks[b.physical].refs - 1)],
       freeBindings := [k] + v.freeBindings)
  }

  /** Entry `i`, unreferenced, gives its block up. */
  function Invalidated(v: View, i: nat): View
    requires i < |v.entries| && v.entries[i].physical < |v.blocks|
  {
    v.(entries := v.entries[i := NO_ENTRY], blocks := v.blocks[v.entries[i].physical := Hold(false, 0)],
       freeEntries := [i] + v.freeEntries)
  }

  /** The next free entry takes block `p` as `e`. */
  function Installed(v: View, e: Entry): View
    requires v.freeEntries != [] && v.freeEntries[0] < |v.entries| && e.physical < |v.blocks|
  {
    v.(entries := v.entries[v.freeEntries[0] := e], blocks := v.blocks[e.physical := Hold(true, 0)],
       freeEntries := v.freeEntries[1..])
  }

  /** Entry `i`, unreferenced, is evicted for `e` on the same block. */
  function Replaced(v: View, i: nat, e: Entry): View
    requires i < |v.entries|
  {
    v.(entries := v.entries[i := e])
  }

  // ---- Binding keeps everything --------------------------------------------

  lemma BoundKeepsStored(v: View, i: nat, sequence: nat, epoch: nat, pending: bool)
    requires Consistent(v) && i < |v.entries| && v.entries[i].valid && v.freeBindings != [] && epoch <= v.epoch
    requires v.entries[i].pending ==> epoch == v.entries[i].reservationEpoch
    ensures v.entries[i].physical < |v.blocks| && v.freeBindings[0] < |v.bindings|
    ensures Stored(Bound(v, i, sequence, epoch, pending))
  {
    assert EntryStored(v, i);
    assert v.freeBindings[0] in v.freeBindings;
    var w, k := Bound(v, i, sequence, epoch, pending), v.freeBindings[0];
    forall j | 0 <= j < |w.entries| ensures EntryStored(w, j) {
      assert EntryStored(v, j);
      CountAfterUpdate(v.bindings, k, w.bindings[k], j);
      assert Owns(v, i, v.entries[i].physical);
      assert v.entries[j].valid ==> Owns(v, j, v.entries[j].physical);
    }
    forall l | 0 <= l < |w.bindings| ensures BindingStored(w, l) {
      assert BindingStored(v, l);
    }
  }

  /** A list without its head is still free of repeats, and lacks just the head. */
  lemma PopExact(x: seq<nat>)
    requires NoRepeats(x) && x != []
    ensures NoRepeats(x[1..]) && forall k: nat :: k in x[1..] <==> k in x && k != x[0]
  {
    forall k: nat ensures k in x[1..] <==> k in x && k != x[0] {
      if k in x && k != x[0] {
        var i :| 0 <= i < |x| && x[i] == k;
        assert x[1..][i - 1] == k;
      }
    }
  }

  lemma PushExact(x: seq<nat>, k: nat)
    requires NoRepeats(x) && k !in x
    ensures NoRepeats([k] + x) && forall j: nat :: j in [k] + x <==> j in x || j == k
  {
  }

  /** Ownership is all a bijection is about. */
  lemma SameOwnersKeepBijection(v: View, w: View)
    requires Bijective(v) && |w.entries| == |v.entries| && |w.blocks| == |v.blocks|
    requires forall i :: 0 <= i < |v.entries| ==>
      w.entries[i].valid == v.entries[i].valid && w.entries[i].physical == v.entries[i].physical
    requires forall p :: 0 <= p < |v.blocks| ==> w.blocks[p].inUse == v.blocks[p].inUse
    ensures Bijective(w)
  {
    forall i: nat, p: nat ensures Owns(w, i, p) <==> Owns(v, i, p) {
    }
    forall p | 0 <= p < |w.blocks| && w.blocks[p].inUse ensures Owned(w, p) {
      assert Owned(v, p);
      var i: nat :| Owns(v, i, p);
      assert Owns(w, i, p);
    }
  }

  lemma BoundKeepsBijection(v: View, i: nat, sequence: nat, epoch: nat, pending: bool)
    requires Bijective(v) && i < |v.entries| && v.entries[i].physical < |v.blocks|
    requires v.freeBindings != [] && v.freeBindings[0] < |v.bindings|
    ensures Bijective(Bound(v, i, sequence, epoch, pending))
  {
    SameOwnersKeepBijection(v, Bound(v, i, sequence, epoch, pending));
  }

  lemma BoundKeeps(v: View, i: nat, sequence: nat, epoch: nat, pending: bool)
    requires Consistent(v) && i < |v.entries| && v.entries[i].valid && v.freeBindings != [] && epoch <= v.epoch
    requires v.entries[i].pending ==> epoch == v.entries[i].reservationEpoch
    requires forall k: nat :: !At(v, k, sequence, v.entries[i].first)
    requires forall k :: 0 <= k < |v.bindings| && v.bindings[k].valid && v.bindings[k].epoch == epoch ==>
      v.bindings[k].sequence == sequence
    ensures v.entries[i].physical < |v.blocks| && v.freeBindings[0] < |v.bindings|
    ensures Consistent(Bound(v, i, sequence, epoch, pending))
  {
    BoundKeepsStored(v, i, sequence, epoch, pending);
    var w, n := Bound(v, i, sequence, epoch, pending), v.freeBindings[0];
    PopExact(v.freeBindings);
    assert n in v.freeBindings;
    BoundKeepsBijection(v, i, sequence, epoch, pending);
    forall k: nat, l: nat, s: nat, f: nat | At(w, k, s, f) && At(w, l, s, f) ensures k == l {
      assert k != n ==> At(v, k, s, f);
      assert l != n ==> At(v, l, s, f);
    }
    forall k: nat, l: nat | SameEpoch(w, k, l) ensures w.bindings[k].sequence == w.bindings[l].sequence {
      assert k != n && l != n ==> SameEpoch(v, k, l);
    }
  }

  // ---- Unbinding keeps everything ------------------------------------------

  lemma UnboundKeepsStored(v: View, k: nat)
    requires Consistent(v) && k < |v.bindings| && v.bindings[k].valid
    ensures v.bindings[k].entry < |v.entries| && v.entries[v.bindings[k].entry].refs > 0
    ensures v.bindings[k].physical < |v.blocks| && v.blocks[v.bindings[k].physical].refs > 0
    ensures Stored(Unbound(v, k))
  {
    var i := v.bindings[k].entry;
    assert BindingStored(v, k);
    assert EntryStored(v, i);
    CountedBinder(v.bindings, k);
    var w := Unbound(v, k);
    forall j | 0 <= j < |w.entries| ensures EntryStored(w, j) {
      assert EntryStored(v, j);
      CountAfterUpdate(v.bindings, k, NO_BINDING, j);
      assert Owns(v, i, v.entries[i].physical);
      assert v.entries[j].valid ==> Owns(v, j, v.entries[j].physical);
    }
    forall l | 0 <= l < |w.bindings| ensures BindingStored(w, l) {
      assert BindingStored(v, l);
    }
  }

  lemma FewerBindingsStayOrderly(v: View, w: View)
    requires Orderly(v) && |w.bindings| == |v.bindings|
    requires forall k :: 0 <= k < |v.bindings| && w.bindings[k].valid ==>
      v.bindings[k].valid && w.bindings[k].sequence == v.bindings[k].sequence
      && w.bindings[k].first == v.bindings[k].first
      && w.bindings[k].epoch == v.bindings[k].epoch
    ensures Orderly(w)
  {
    forall k: nat, l: nat, s: nat, f: nat | At(w, k, s, f) && At(w, l, s, f) ensures k == l {
      assert At(v, k, s, f) && At(v, l, s, f);
    }
    forall k: nat, l: nat | SameEpoch(w, k, l) ensures w.bindings[k].sequence == w.bindings[l].sequence {
      assert SameEpoch(v, k, l);
    }
  }

  lemma UnboundKeeps(v: View, k: nat)
    requires Consistent(v) && k < |v.bindings| && v.bindings[k].valid
    ensures v.bindings[k].entry < |v.entries| && v.entries[v.bindings[k].entry].refs > 0
    ensures v.bindings[k].physical < |v.blocks| && v.blocks[v.bindings[k].physical].refs > 0
    ensures Consistent(Unbound(v, k))
  {
    UnboundKeepsStored(v, k);
    var w := Unbound(v, k);
    PushExact(v.freeBindings, k);
    assert BindingStored(v, k);
    SameOwnersKeepBijection(v, w);
    FewerBindingsStayOrderly(v, w);
  }

  // ---- Entries come and go -------------------------------------------------

  /** No binding names an unreferenced entry. */
  lemma UnreferencedIsUnbound(v: View, i: nat)
    requires EntryStored(v, i) && v.entries[i].refs == 0
    ensures forall k :: 0 <= k < |v.bindings| && v.bindings[k].valid ==> v.bindings[k].entry != i
  {
    forall k | 0 <= k < |v.bindings| && v.bindings[k].valid ensures v.bindings[k].entry != i {
      CountedBinder(v.bindings, k);
    }
  }

  lemma InvalidatedKeepsBijection(v: View, i: nat)
    requires Bijective(v) && i < |v.entries| && v.entries[i].valid && v.entries[i].physical < |v.blocks|
    ensures Bijective(Invalidated(v, i))
  {
    var w := Invalidated(v, i);
    assert Owns(v, i, v.entries[i].physical);
    forall j: nat, p: nat ensures Owns(w, j, p) <==> Owns(v, j, p) && j != i {
    }
    forall p | 0 <= p < |w.blocks| && w.blocks[p].inUse ensures Owned(w, p) {
      assert Owned(v, p);
      var j: nat :| Owns(v, j, p);
      assert Owns(w, j, p);
    }
  }

  lemma InvalidatedKeeps(v: View, i: nat)
    requires Consistent(v) && i < |v.entries| && v.entries[i].valid && v.entries[i].refs == 0
    ensures v.entries[i].physical < |v.blocks|
    ensures Consistent(Invalidated(v, i))
  {
    assert EntryStored(v, i);
    var w, p := Invalidated(v, i), v.entries[i].physical;
    UnreferencedIsUnbound(v, i);
    assert Owns(v, i, p);
    forall j | 0 <= j < |w.entries| ensures EntryStored(w, j) {
      assert EntryStored(v, j);
      assert v.entries[j].valid ==> Owns(v, j, v.entries[j].physical);
    }
    forall k | 0 <= k < |w.bindings| ensures BindingStored(w, k) {
      assert BindingStored(v, k);
    }
    PushExact(v.freeEntries, i);
    InvalidatedKeepsBijection(v, i);
    FewerBindingsStayOrderly(v, w);
  }

  lemma InstalledKeepsBijection(v: View, e: Entry)
    requires Bijective(v) && v.freeEntries != [] && v.freeEntries[0] < |v.entries| && !v.entries[v.freeEntries[0]].valid
    requires e.valid
    requires e.physical < |v.blocks| && !v.blocks[e.physical].inUse
    requires forall i :: 0 <= i < |v.entries| ==> EntryStored(v, i)
    ensures Bijective(Installed(v, e))
  {
    var w, i := Installed(v, e), v.freeEntries[0];
    forall j: nat, p: nat ensures Owns(w, j, p) <==> (j == i && p == e.physical) || (j != i && Owns(v, j, p)) {
    }
    forall j: nat ensures !Owns(v, j, e.physical) {
      assert j < |v.entries| ==> EntryStored(v, j);
    }
    forall p | 0 <= p < |w.blocks| && w.blocks[p].inUse ensures Owned(w, p) {
      if p == e.physical {
        assert Owns(w, i, p);
      } else {
        assert Owned(v, p);
        var j: nat :| Owns(v, j, p);
        assert Owns(w, j, p);
      }
    }
  }

  lemma InstalledKeeps(v: View, e: Entry)
    requires Consistent(v) && v.freeEntries != [] && e.valid && e.refs == 0
    requires (e.pending ==> e.reservationEpoch <= v.epoch)
    requires e.physical < |v.blocks| && !v.blocks[e.physical].inUse
    ensures v.freeEntries[0] < |v.entries|
    ensures Consistent(Installed(v, e))
  {
    assert v.freeEntries[0] in v.freeEntries;
    var w, i := Installed(v, e), v.freeEntries[0];
    assert EntryStored(v, i);
    UnreferencedIsUnbound(v, i);
    forall j | 0 <= j < |w.entries| ensures EntryStored(w, j) {
      assert EntryStored(v, j);
    }
    forall k | 0 <= k < |w.bindings| ensures BindingStored(w, k) {
      assert BindingStored(v, k);
    }
    PopExact(v.freeEntries);
    InstalledKeepsBijection(v, e);
    FewerBindingsStayOrderly(v, w);
  }

  lemma ReplacedKeeps(v: View, i: nat, e: Entry)
    requires Consistent(v) && i < |v.entries| && v.entries[i].valid && v.entries[i].refs == 0
    requires e.valid && e.refs == 0 && e.physical == v.entries[i].physical
    requires (e.pending ==> e.reservationEpoch <= v.epoch)
    ensures Consistent(Replaced(v, i, e))
  {
    var w := Replaced(v, i, e);
    assert EntryStored(v, i);
    UnreferencedIsUnbound(v, i);
    forall j | 0 <= j < |w.entries| ensures EntryStored(w, j) {
      assert EntryStored(v, j);
    }
    forall k | 0 <= k < |w.bindings| ensures BindingStored(w, k) {
      assert BindingStored(v, k);
    }
    SameOwnersKeepBijection(v, w);
    FewerBindingsStayOrderly(v, w);
  }

  // ---- Changes that move nothing -------------------------------------------

  /** Fields that say who owns and references what. */
  predicate SameEntry(x: Entry, y: Entry) {
    && y.valid == x.valid && y.tokens == x.tokens && y.first == x.first && y.physical == x.physical && y.refs == x.refs
    && y.blockHash == x.blockHash && y.reservationEpoch == x.reservationEpoch && (y.pending ==> x.pending)
  }

  predicate SameBinding(x: Binding, y: Binding) {
    y == x.(pending := y.pending)
  }

  /** Flags, ticks and residency may change; time may pass. */
  ghost predicate SameHoldings(v: View, w: View) {
    && |w.entries| == |v.entries| && |w.bindings| == |v.bindings| && w.blocks == v.blocks
    && w.freeEntries == v.freeEntries && w.freeBindings == v.freeBindings && w.epoch >= v.epoch
    && (forall i :: 0 <= i < |v.entries| ==> SameEntry(v.entries[i], w.entries[i]))
    && (forall k :: 0 <= k < |v.bindings| ==> SameBinding(v.bindings[k], w.bindings[k]))
  }

  lemma SameHoldingsKeepFree(v: View, w: View)
    requires FreeExact(v) && SameHoldings(v, w)
    ensures FreeExact(w)
  {
    forall i: nat ensures i in w.freeEntries <==> i < |w.entries| && !w.entries[i].valid {
      assert i < |v.entries| ==> SameEntry(v.entries[i], w.entries[i]);
    }
    forall k: nat ensures k in w.freeBindings <==> k < |w.bindings| && !w.bindings[k].valid {
      assert k < |v.bindings| ==> SameBinding(v.bindings[k], w.bindings[k]);
    }
  }

  lemma SameHoldingsKeep(v: View, w: View)
    requires Consistent(v) && SameHoldings(v, w)
    ensures Consistent(w)
  {
    forall i: nat ensures Binders(w.bindings, i) == Binders(v.bindings, i) {
    }
    forall i | 0 <= i < |w.entries| ensures EntryStored(w, i) {
      assert EntryStored(v, i);
      assert Binders(w.bindings, i) == Binders(v.bindings, i);
    }
    forall k | 0 <= k < |w.bindings| ensures BindingStored(w, k) {
      assert BindingStored(v, k);
    }
    SameOwnersKeepBijection(v, w);
    FewerBindingsStayOrderly(v, w);
    SameHoldingsKeepFree(v, w);
  }

  /** The one binding of an entry, and the entry, grow together. */
  function Grown(v: View, i: nat, k: nat, tokens: nat): View
    requires i < |v.entries| && k < |v.bindings|
  {
    v.(entries := v.entries[i := v.entries[i].(tokens := tokens)],
       bindings := v.bindings[k := v.bindings[k].(tokens := tokens)])
  }

  lemma OnlyBinder(v: View, i: nat, k: nat)
    requires BindCount(v.bindings, i) == 1 && k < |v.bindings| && v.bindings[k].valid && v.bindings[k].entry == i
    ensures forall l :: 0 <= l < |v.bindings| && v.bindings[l].valid && v.bindings[l].entry == i ==> l == k
  {
    var all := Binders(v.bindings, i);
    assert k in all && |all - {k}| == 0;
    forall l: nat ensures l in all ==> l == k {
      assert l !in all - {k};
    }
    forall l | 0 <= l < |v.bindings| && v.bindings[l].valid && v.bindings[l].entry == i ensures l == k {
      assert l in all;
    }
  }

  lemma GrownKeeps(v: View, i: nat, k: nat, tokens: nat)
    requires Consistent(v) && i < |v.entries| && v.entries[i].refs == 1
    requires k < |v.bindings| && v.bindings[k].valid && v.bindings[k].entry == i
    ensures Consistent(Grown(v, i, k, tokens))
  {
    var w := Grown(v, i, k, tokens);
    assert EntryStored(v, i);
    OnlyBinder(v, i, k);
    forall j: nat ensures Binders(w.bindings, j) == Binders(v.bindings, j) {
    }
    forall j | 0 <= j < |w.entries| ensures EntryStored(w, j) {
      assert EntryStored(v, j);
      assert Binders(w.bindings, j) == Binders(v.bindings, j);
    }
    forall l | 0 <= l < |w.bindings| ensures BindingStored(w, l) {
      assert BindingStored(v, l);
    }
    SameOwnersKeepBijection(v, w);
    FewerBindingsStayOrderly(v, w);
  }

  // ---- Sealed consistency --------------------------------------------------

  ghost function Seal(v: View, n: nat): nat {
    if n > 0 then Seal(v, n - 1) else if Consistent(v) then 1 else 0
  }

  /** `Consistent`, sealed behind a recursion the verifier does not unroll. */
  ghost predicate Coherent(v: View) {
    Seal(v, v.epoch + 2) == 1
  }

  lemma {:induction false} Unseal(v: View, n: nat)
    ensures Seal(v, n) == 1 <==> Consistent(v)
  {
    if n > 0 {
      Unseal(v, n - 1);
    }
  }

  lemma OpenCoherent(v: View)
    ensures Coherent(v) <==> Consistent(v)
  {
    Unseal(v, v.epoch + 2);
  }

  /** What is known of an entry in use. */
  lemma UsedEntry(v: View, i: nat)
    requires Coherent(v) && i < |v.entries| && v.entries[i].valid
    ensures EntryStored(v, i)
  {
    OpenCoherent(v);
  }

  /** What is known of a binding in use. */
  lemma UsedBinding(v: View, k: nat)
    requires Coherent(v) && k < |v.bindings| && v.bindings[k].valid
    ensures BindingStored(v, k) && EntryStored(v, v.bindings[k].entry) && v.entries[v.bindings[k].entry].refs > 0
  {
    OpenCoherent(v);
    assert BindingStored(v, k) && EntryStored(v, v.bindings[k].entry);
    CountedBinder(v.bindings, k);
  }

  lemma NextFree(v: View)
    requires Coherent(v)
    ensures v.freeEntries != [] ==> v.freeEntries[0] < |v.entries| && !v.entries[v.freeEntries[0]].valid
    ensures v.freeEntries == [] ==> forall i :: 0 <= i < |v.entries| ==> v.entries[i].valid
    ensures v.freeBindings != [] ==> v.freeBindings[0] < |v.bindings| && !v.bindings[v.freeBindings[0]].valid
  {
    OpenCoherent(v);
    assert v.freeEntries != [] ==> v.freeEntries[0] in v.freeEntries;
    assert v.freeBindings != [] ==> v.freeBindings[0] in v.freeBindings;
  }

  lemma BoundIsCoherent(v: View, i: nat, sequence: nat, epoch: nat, pending: bool)
    requires Coherent(v) && i < |v.entries| && v.entries[i].valid && v.freeBindings != [] && epoch <= v.epoch
    requires v.entries[i].pending ==> epoch == v.entries[i].reservationEpoch
    requires forall k: nat :: !At(v, k, sequence, v.entries[i].first)
    requires forall k :: 0 <= k < |v.bindings| && v.bindings[k].valid && v.bindings[k].epoch == epoch ==>
      v.bindings[k].sequence == sequence
    ensures v.entries[i].physical < |v.blocks| && v.freeBindings[0] < |v.bindings|
    ensures Coherent(Bound(v, i, sequence, epoch, pending))
  {
    OpenCoherent(v);
    BoundKeeps(v, i, sequence, epoch, pending);
    OpenCoherent(Bound(v, i, sequence, epoch, pending));
  }

  lemma UnboundIsCoherent(v: View, k: nat)
    requires Coherent(v) && k < |v.bindings| && v.bindings[k].valid
    ensures v.bindings[k].entry < |v.entries| && v.entries[v.bindings[k].entry].refs > 0
    ensures v.bindings[k].physical < |v.blocks| && v.blocks[v.bindings[k].physical].refs > 0
    ensures Coherent(Unbound(v, k))
  {
    OpenCoherent(v);
    UnboundKeeps(v, k);
    OpenCoherent(Unbound(v, k));
  }

  lemma InvalidatedIsCoherent(v: View, i: nat)
    requires Coherent(v) && i < |v.entries| && v.entries[i].valid && v.entries[i].refs == 0
    ensures v.entries[i].physical < |v.blocks| && Coherent(Invalidated(v, i))
  {
    OpenCoherent(v);
    InvalidatedKeeps(v, i);
    OpenCoherent(Invalidated(v, i));
  }

  lemma InstalledIsCoherent(v: View, e: Entry)
    requires Coherent(v) && v.freeEntries != [] && e.valid && e.refs == 0
    requires (e.pending ==> e.reservationEpoch <= v.epoch)
    requires e.physical < |v.blocks| && !v.blocks[e.physical].inUse
    ensures v.freeEntries[0] < |v.entries| && Coherent(Installed(v, e))
  {
    OpenCoherent(v);
    InstalledKeeps(v, e);
    OpenCoherent(Installed(v, e));
  }

  lemma ReplacedIsCoherent(v: View, i: nat, e: Entry)
    requires Coherent(v) && i < |v.entries| && v.entries[i].valid && v.entries[i].refs == 0
    requires e.valid && e.refs == 0 && e.physical == v.entries[i].physical
    requires (e.pending ==> e.reservationEpoch <= v.epoch)
    ensures Coherent(Replaced(v, i, e))
  {
    OpenCoherent(v);
    ReplacedKeeps(v, i, e);
    OpenCoherent(Replaced(v, i, e));
  }

  lemma SameHoldingsAreCoherent(v: View, w: View)
    requires Coherent(v) && SameHoldings(v, w)
    ensures Coherent(w)
  {
    OpenCoherent(v);
    SameHoldingsKeep(v, w);
    OpenCoherent(w);
  }

  lemma GrownIsCoherent(v: View, i: nat, k: nat, tokens: nat)
    requires Coherent(v) && i < |v.entries| && v.entries[i].refs == 1
    requires k < |v.bindings| && v.bindings[k].valid && v.bindings[k].entry == i
    ensures Coherent(Grown(v, i, k, tokens))
  {
    OpenCoherent(v);
    GrownKeeps(v, i, k, tokens);
    OpenCoherent(Grown(v, i, k, tokens));
  }
}
