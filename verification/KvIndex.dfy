/**
 * The open-addressed tables of the key/value directory: linear probing with
 * backward-shift deletion. A well-formed table represents a finite map; probing
 * decides membership, and insertion and deletion change exactly one key.
 */
module KvIndex {
  import opened Arithmetic
  import opened Sequences

  /** 128-bit block identity; the all-zero key marks an empty slot. */
  datatype KvKey = KvKey(low: nat, high: nat) {
    predicate IsEmpty() { low == 0 && high == 0 }
  }

  /** One slot: vacant (the all-zero key) or holding a key and its record. */
  datatype Slot<V> = Vacant | Held(key: KvKey, value: V)

  /** What a probe reports when every slot holds another key: `u32::MAX`. */
  const SATURATED := 0xFFFF_FFFF

  /** The home slot. Tables are a power of two long, so masking the hash is this remainder. */
  function Home(key: KvKey, n: nat): (slot: nat)
    requires n > 0
    ensures slot < n
  {
    Remainder(key.low, n)
  }

  function Next(i: nat, n: nat): nat { if i + 1 >= n then 0 else i + 1 }

  /** Steps from slot `a` forward to slot `b`, around the end of the table. */
  function Dist(a: nat, b: nat, n: nat): nat
    requires a < n && b < n
  {
    if a <= b then b - a else b + n - a
  }

  // ---- Well-formed tables and the map they represent -----------------------

  ghost predicate Distinct<V>(t: seq<Slot<V>>) {
    forall i, j :: 0 <= i < |t| && 0 <= j < |t| && t[i].Held? && t[j].Held? && t[i].key == t[j].key ==> i == j
  }

  /** Slot `p` lies on the probe path of slot `s`'s key, before `s`. */
  ghost predicate OnPath<V>(t: seq<Slot<V>>, s: nat, p: nat)
    requires s < |t| && p < |t| && t[s].Held?
  {
    var home := Home(t[s].key, |t|);
    Dist(home, p, |t|) < Dist(home, s, |t|)
  }

  /** Every probe path is unbroken, except perhaps at slot `hole`. */
  ghost predicate ChainsUnbrokenBut<V>(t: seq<Slot<V>>, hole: nat) {
    forall s, p :: 0 <= s < |t| && 0 <= p < |t| && t[s].Held? && OnPath(t, s, p) ==> t[p].Held? || p == hole
  }

  ghost predicate ChainsUnbroken<V>(t: seq<Slot<V>>) {
    forall s, p :: 0 <= s < |t| && 0 <= p < |t| && t[s].Held? && OnPath(t, s, p) ==> t[p].Held?
  }

  ghost predicate KeysAreReal<V>(t: seq<Slot<V>>) {
    forall i :: 0 <= i < |t| && t[i].Held? ==> !t[i].key.IsEmpty()
  }

  ghost predicate Sound<V>(t: seq<Slot<V>>) {
    0 < |t| < SATURATED && Distinct(t) && KeysAreReal(t) && ChainsUnbroken(t)
  }

  /** The keys a table holds. */
  ghost function Keys<V>(t: seq<Slot<V>>): set<KvKey> {
    set i | 0 <= i < |t| && t[i].Held? :: t[i].key
  }

  ghost function SlotOf<V>(t: seq<Slot<V>>, key: KvKey): (i: nat)
    requires key in Keys(t)
    ensures i < |t| && t[i].Held? && t[i].key == key
  {
    var i :| 0 <= i < |t| && t[i].Held? && t[i].key == key;
    i
  }

  /** The finite map a table represents. */
  ghost function Entries<V>(t: seq<Slot<V>>): (m: map<KvKey, V>)
    requires Distinct(t)
    ensures forall i :: 0 <= i < |t| && t[i].Held? ==> t[i].key in m && m[t[i].key] == t[i].value
    ensures forall k :: k in m ==> k in Keys(t)
  {
    map k | k in Keys(t) :: t[SlotOf(t, k)].value
  }

  /** `m` has every held slot's record and no other key. */
  ghost predicate Represents<V>(t: seq<Slot<V>>, m: map<KvKey, V>) {
    && (forall i :: 0 <= i < |t| && t[i].Held? ==> t[i].key in m && m[t[i].key] == t[i].value)
    && m.Keys <= Keys(t)
  }

  lemma RepresentsOnlyEntries<V>(t: seq<Slot<V>>, m: map<KvKey, V>)
    requires Distinct(t) && Represents(t, m)
    ensures Entries(t) == m
  {
    var n := Entries(t);
    forall k | k in m ensures k in n && n[k] == m[k] {
      var i := SlotOf(t, k);
    }
    forall k | k in n ensures k in m {
      var i := SlotOf(t, k);
    }
  }

  // ---- The same, slot by slot ----------------------------------------------

  /** Slot `i` holds nothing, or a real key that no other slot holds and whose probe path is unbroken. */
  ghost predicate SoundAt<V>(t: seq<Slot<V>>, i: nat)
    requires i < |t|
  {
    t[i].Held? ==>
      && !t[i].key.IsEmpty()
      && (forall j :: 0 <= j < |t| && t[j].Held? && t[j].key == t[i].key ==> j == i)
      && (forall p :: 0 <= p < |t| && OnPath(t, i, p) ==> t[p].Held?)
  }

  ghost predicate SoundUpTo<V>(t: seq<Slot<V>>, k: nat)
    requires k <= |t|
  {
    k == 0 || (SoundAt(t, k - 1) && SoundUpTo(t, k - 1))
  }

  /** A well-formed table: every slot is sound. */
  ghost predicate WellFormed<V>(t: seq<Slot<V>>) {
    0 < |t| < SATURATED && SoundUpTo(t, |t|)
  }

  lemma {:induction false} SoundUpToMeans<V>(t: seq<Slot<V>>, k: nat)
    requires k <= |t|
    ensures SoundUpTo(t, k) <==> forall i :: 0 <= i < k ==> SoundAt(t, i)
  {
    if k > 0 {
      SoundUpToMeans(t, k - 1);
    }
  }

  lemma WellFormedMeans<V>(t: seq<Slot<V>>)
    ensures WellFormed(t) <==> Sound(t)
  {
    SoundUpToMeans(t, |t|);
    if Sound(t) {
      forall i | 0 <= i < |t| ensures SoundAt(t, i) {
      }
    }
    if WellFormed(t) {
      forall s, p | 0 <= s < |t| && 0 <= p < |t| && t[s].Held? && OnPath(t, s, p) ensures t[p].Held? {
        assert SoundAt(t, s);
      }
      forall i, j | 0 <= i < |t| && 0 <= j < |t| && t[i].Held? && t[j].Held? && t[i].key == t[j].key ensures i == j {
        assert SoundAt(t, i);
      }
      forall i | 0 <= i < |t| && t[i].Held? ensures !t[i].key.IsEmpty() {
        assert SoundAt(t, i);
      }
    }
  }

  ghost function ContentsUpTo<V>(t: seq<Slot<V>>, k: nat): map<KvKey, V>
    requires k <= |t|
  {
    if k == 0 then map[]
    else if t[k - 1].Held? then ContentsUpTo(t, k - 1)[t[k - 1].key := t[k - 1].value]
    else ContentsUpTo(t, k - 1)
  }

  /** The finite map a well-formed table represents, read slot by slot. */
  ghost function Contents<V>(t: seq<Slot<V>>): map<KvKey, V> {
    ContentsUpTo(t, |t|)
  }

  lemma {:induction false} ContentsUpToMeans<V>(t: seq<Slot<V>>, k: nat)
    requires k <= |t| && Distinct(t)
    ensures forall i :: 0 <= i < k && t[i].Held? ==>
      t[i].key in ContentsUpTo(t, k) && ContentsUpTo(t, k)[t[i].key] == t[i].value
    ensures ContentsUpTo(t, k).Keys <= Keys(t)
  {
    if k > 0 {
      ContentsUpToMeans(t, k - 1);
    }
  }

  lemma ContentsMeans<V>(t: seq<Slot<V>>)
    requires WellFormed(t)
    ensures Sound(t) && Contents(t) == Entries(t)
  {
    WellFormedMeans(t);
    ContentsUpToMeans(t, |t|);
    RepresentsOnlyEntries(t, Contents(t));
  }

  // ---- Probing -------------------------------------------------------------

  /** The slot a probe for `key` stops at when the key is absent. */
  ghost predicate InsertionPoint<V>(t: seq<Slot<V>>, key: KvKey, slot: nat) {
    && slot < |t|
    && t[slot].Vacant?
    && forall p :: 0 <= p < |t| && Dist(Home(key, |t|), p, |t|) < Dist(Home(key, |t|), slot, |t|) ==> t[p].Held?
  }

  /** The first `steps` slots of a key's probe path hold other keys. */
  ghost predicate Passed<V>(t: seq<Slot<V>>, key: KvKey, steps: nat)
    requires |t| > 0
  {
    forall p :: 0 <= p < |t| && Dist(Home(key, |t|), p, |t|) < steps ==> t[p].Held? && t[p].key != key
  }

  lemma PassedToVacancy<V>(t: seq<Slot<V>>, key: KvKey, slot: nat)
    requires WellFormed(t) && slot < |t| && t[slot].Vacant?
    requires Passed(t, key, Dist(Home(key, |t|), slot, |t|))
    ensures key !in Contents(t) && InsertionPoint(t, key, slot)
  {
    ContentsMeans(t);
    if key in Entries(t) {
      var i := SlotOf(t, key);
      assert OnPath(t, i, slot);
      assert false;
    }
  }

  lemma PassedAll<V>(t: seq<Slot<V>>, key: KvKey)
    requires WellFormed(t) && Passed(t, key, |t|)
    ensures key !in Contents(t) && forall i :: 0 <= i < |t| ==> t[i].Held?
  {
    ContentsMeans(t);
    forall p | 0 <= p < |t| ensures t[p].Held? && t[p].key != key {
      assert Dist(Home(key, |t|), p, |t|) < |t|;
    }
  }

  lemma HeldIsContained<V>(t: seq<Slot<V>>, slot: nat)
    requires WellFormed(t) && slot < |t| && t[slot].Held?
    ensures t[slot].key in Contents(t) && Contents(t)[t[slot].key] == t[slot].value && !t[slot].key.IsEmpty()
  {
    ContentsMeans(t);
  }

  /**
   * Linear probe: the slot of a stored key, otherwise the slot to occupy, otherwise the saturation marker.
   * The key is found exactly when the table's map has it.
   */
  method Probe<V>(t: seq<Slot<V>>, key: KvKey) returns (slot: nat, found: bool)
    requires WellFormed(t) && !key.IsEmpty()
    ensures found <==> key in Contents(t)
    ensures found ==> slot < |t| && t[slot].Held? && t[slot].key == key && t[slot].value == Contents(t)[key]
    ensures !found && slot != SATURATED ==> InsertionPoint(t, key, slot)
    ensures slot == SATURATED <==> !found && forall i :: 0 <= i < |t| ==> t[i].Held?
  {
    var n := |t|;
    var home := Home(key, n);
    slot := home;
    for steps := 0 to n
      invariant slot < n
      invariant steps < n ==> Dist(home, slot, n) == steps
      invariant Passed(t, key, steps)
    {
      if t[slot].Vacant? {
        PassedToVacancy(t, key, slot);
        return slot, false;
      }
      if t[slot].key == key {
        HeldIsContained(t, slot);
        return slot, true;
      }
      slot := Next(slot, n);
    }
    PassedAll(t, key);
    return SATURATED, false;
  }

  /** Slot of a stored key. */
  method Find<V>(t: seq<Slot<V>>, key: KvKey) returns (slot: nat, found: bool)
    requires WellFormed(t) && !key.IsEmpty()
    ensures found <==> key in Contents(t)
    ensures found ==> slot < |t| && t[slot].Held? && t[slot].key == key && t[slot].value == Contents(t)[key]
  {
    slot, found := Probe(t, key);
  }

  // ---- Insertion and update ------------------------------------------------

  lemma InsertIsSound<V>(t: seq<Slot<V>>, key: KvKey, value: V, slot: nat)
    requires Sound(t) && !key.IsEmpty()
    requires key !in Entries(t) && InsertionPoint(t, key, slot)
    ensures Sound(t[slot := Held(key, value)])
    ensures Entries(t[slot := Held(key, value)]) == Entries(t)[key := value]
  {
    var u := t[slot := Held(key, value)];
    assert forall i :: 0 <= i < |t| && i != slot ==> u[i] == t[i];
    forall s, p | 0 <= s < |u| && 0 <= p < |u| && u[s].Held? && OnPath(u, s, p) ensures u[p].Held? {
      if s != slot && p != slot {
        assert OnPath(t, s, p);
      }
    }
    var m := Entries(t)[key := value];
    forall k | k in m ensures k in Keys(u) {
      var i := if k == key then slot else SlotOf(t, k);
      assert u[i].Held? && u[i].key == k;
    }
    RepresentsOnlyEntries(u, m);
  }

  lemma UpdateIsSound<V>(t: seq<Slot<V>>, slot: nat, value: V)
    requires Sound(t) && slot < |t| && t[slot].Held?
    ensures Sound(t[slot := Held(t[slot].key, value)])
    ensures Entries(t[slot := Held(t[slot].key, value)]) == Entries(t)[t[slot].key := value]
  {
    var key := t[slot].key;
    var u := t[slot := Held(key, value)];
    forall s, p | 0 <= s < |u| && 0 <= p < |u| && u[s].Held? && OnPath(u, s, p) ensures u[p].Held? {
      assert OnPath(t, s, p);
    }
    var m := Entries(t)[key := value];
    forall k | k in m ensures k in Keys(u) {
      var i := if k == key then slot else SlotOf(t, k);
      assert u[i].Held? && u[i].key == k;
    }
    RepresentsOnlyEntries(u, m);
  }

  /** Occupying the slot a probe returned adds just that key. */
  lemma InsertRefines<V>(t: seq<Slot<V>>, key: KvKey, value: V, slot: nat)
    requires WellFormed(t) && !key.IsEmpty()
    requires key !in Contents(t) && InsertionPoint(t, key, slot)
    ensures WellFormed(t[slot := Held(key, value)])
    ensures Contents(t[slot := Held(key, value)]) == Contents(t)[key := value]
  {
    ContentsMeans(t);
    InsertIsSound(t, key, value, slot);
    WellFormedMeans(t[slot := Held(key, value)]);
    ContentsMeans(t[slot := Held(key, value)]);
  }

  /** Changing a record in place changes just that key's value. */
  lemma UpdateRefines<V>(t: seq<Slot<V>>, slot: nat, value: V)
    requires WellFormed(t) && slot < |t| && t[slot].Held?
    ensures t[slot].key in Contents(t) && Contents(t)[t[slot].key] == t[slot].value
    ensures WellFormed(t[slot := Held(t[slot].key, value)])
    ensures Contents(t[slot := Held(t[slot].key, value)]) == Contents(t)[t[slot].key := value]
  {
    ContentsMeans(t);
    UpdateIsSound(t, slot, value);
    WellFormedMeans(t[slot := Held(t[slot].key, value)]);
    ContentsMeans(t[slot := Held(t[slot].key, value)]);
  }

  /** The same keys in the same slots. */
  ghost predicate SameLayout<V>(t: seq<Slot<V>>, u: seq<Slot<V>>) {
    && |u| == |t|
    && forall i :: 0 <= i < |t| ==> u[i].Held? == t[i].Held? && (t[i].Held? ==> u[i].key == t[i].key)
  }

  lemma LayoutKeepsInsertionPoint<V>(t: seq<Slot<V>>, u: seq<Slot<V>>, key: KvKey, slot: nat)
    requires SameLayout(t, u) && InsertionPoint(t, key, slot)
    ensures InsertionPoint(u, key, slot)
  {
  }

  // ---- Backward-shift deletion ---------------------------------------------

  /** Clearing a slot removes its key and leaves a hole in the chains. */
  lemma ClearLeavesHole<V>(t: seq<Slot<V>>, slot: nat)
    requires Sound(t) && slot < |t| && t[slot].Held?
    ensures Distinct(t[slot := Vacant]) && KeysAreReal(t[slot := Vacant])
    ensures ChainsUnbrokenBut(t[slot := Vacant], slot)
    ensures Entries(t[slot := Vacant]) == Entries(t) - {t[slot].key}
  {
    var u := t[slot := Vacant];
    forall s, p | 0 <= s < |u| && 0 <= p < |u| && u[s].Held? && OnPath(u, s, p) ensures u[p].Held? || p == slot {
      assert OnPath(t, s, p);
    }
    var m := Entries(t) - {t[slot].key};
    forall k | k in m ensures k in Keys(u) {
      var i := SlotOf(t, k);
      assert u[i] == t[i];
    }
    RepresentsOnlyEntries(u, m);
  }

  /** Moving a displaced slot into the hole moves the hole and keeps the map. */
  lemma ShiftMovesHole<V>(t: seq<Slot<V>>, hole: nat, scan: nat)
    requires Distinct(t) && KeysAreReal(t) && ChainsUnbrokenBut(t, hole)
    requires hole < |t| && scan < |t| && hole != scan && t[hole].Vacant? && t[scan].Held? && OnPath(t, scan, hole)
    ensures var u := t[hole := t[scan]][scan := Vacant];
      Distinct(u) && KeysAreReal(u) && ChainsUnbrokenBut(u, scan) && Entries(u) == Entries(t)
  {
    var u := t[hole := t[scan]][scan := Vacant];
    forall s, p | 0 <= s < |u| && 0 <= p < |u| && u[s].Held? && OnPath(u, s, p) ensures u[p].Held? || p == scan {
      if p != hole {
        assert OnPath(t, if s == hole then scan else s, p);
      }
    }
    assert Distinct(u);
    var m := Entries(t);
    forall k | k in m ensures k in Keys(u) {
      var i := SlotOf(t, k);
      var j := if i == scan then hole else i;
      assert u[j] == t[i];
    }
    RepresentsOnlyEntries(u, m);
  }

  /** None of the `d - 1` slots after the hole needs it. */
  ghost predicate Settled<V>(t: seq<Slot<V>>, hole: nat, d: nat)
    requires hole < |t|
  {
    forall s :: 0 <= s < |t| && t[s].Held? && Dist(hole, s, |t|) < d ==> !OnPath(t, s, hole)
  }

  /** At a vacant scan position the hole is on no path any more. */
  lemma VacantScanSettlesAll<V>(t: seq<Slot<V>>, hole: nat, scan: nat)
    requires ChainsUnbrokenBut(t, hole)
    requires hole < |t| && scan < |t| && hole != scan && t[hole].Vacant? && t[scan].Vacant?
    requires Settled(t, hole, Dist(hole, scan, |t|))
    ensures ChainsUnbroken(t)
  {
    forall s, p | 0 <= s < |t| && 0 <= p < |t| && t[s].Held? && OnPath(t, s, p) ensures t[p].Held? {
      if p == hole {
        assert OnPath(t, s, scan);
      }
    }
  }

  lemma SettleOneMore<V>(t: seq<Slot<V>>, hole: nat, scan: nat)
    requires hole < |t| && scan < |t| && t[scan].Held?
    requires Settled(t, hole, Dist(hole, scan, |t|)) && !OnPath(t, scan, hole)
    ensures Settled(t, hole, Dist(hole, scan, |t|) + 1)
  {
    forall s | 0 <= s < |t| && t[s].Held? && Dist(hole, s, |t|) < Dist(hole, scan, |t|) + 1
      ensures !OnPath(t, s, hole)
    {
      assert s == scan || Dist(hole, s, |t|) < Dist(hole, scan, |t|);
    }
  }

  /** How far a slot's key sits from its home. */
  ghost function Displacement<V>(x: Slot<V>, i: nat, n: nat): nat
    requires i < n
  {
    if x.Held? then Dist(Home(x.key, n), i, n) else 0
  }

  /** All displacements of the first `k` slots together: what a deletion brings down. */
  ghost function TotalDisplacement<V>(t: seq<Slot<V>>, k: nat): nat
    requires k <= |t|
  {
    if k == 0 then 0 else TotalDisplacement(t, k - 1) + Displacement(t[k - 1], k - 1, |t|)
  }

  lemma {:induction false} DisplacementAfterUpdate<V>(t: seq<Slot<V>>, i: nat, x: Slot<V>, k: nat)
    requires i < |t| && k <= |t|
    ensures TotalDisplacement(t[i := x], k)
            == TotalDisplacement(t, k) + if i < k then Displacement(x, i, |t|) - Displacement(t[i], i, |t|) else 0
  {
    if k > 0 {
      DisplacementAfterUpdate(t, i, x, k - 1);
    }
  }

  lemma ShiftLowersDisplacement<V>(t: seq<Slot<V>>, hole: nat, scan: nat)
    requires hole < |t| && scan < |t| && hole != scan && t[hole].Vacant? && t[scan].Held? && OnPath(t, scan, hole)
    ensures TotalDisplacement(t[hole := t[scan]][scan := Vacant], |t|) < TotalDisplacement(t, |t|)
  {
    DisplacementAfterUpdate(t, hole, t[scan], |t|);
    DisplacementAfterUpdate(t[hole := t[scan]], scan, Vacant, |t|);
  }

  /** Deletion in progress: `u` is the table without the erased key, broken at most at `hole`; `d` slots are scanned. */
  ghost predicate Erasing<V>(t: seq<Slot<V>>, erased: KvKey, u: seq<Slot<V>>, hole: nat, scan: nat, d: nat) {
    && 0 < |u| == |t| < SATURATED && hole < |u| && scan < |u| && u[hole].Vacant?
    && 0 < d <= |u| && (if d < |u| then d == Dist(hole, scan, |u|) else scan == hole)
    && Distinct(t) && Distinct(u) && KeysAreReal(u) && ChainsUnbrokenBut(u, hole)
    && Entries(u) == Entries(t) - {erased}
    && Settled(u, hole, d)
  }

  lemma EraseStarts<V>(t: seq<Slot<V>>, slot: nat)
    requires Sound(t) && slot < |t| && t[slot].Held?
    ensures Erasing(t, t[slot].key, t[slot := Vacant], slot, Next(slot, |t|), 1)
  {
    ClearLeavesHole(t, slot);
  }

  lemma EraseSkips<V>(t: seq<Slot<V>>, erased: KvKey, u: seq<Slot<V>>, hole: nat, scan: nat, d: nat)
    requires Erasing(t, erased, u, hole, scan, d) && scan != hole && u[scan].Held? && !OnPath(u, scan, hole)
    ensures Erasing(t, erased, u, hole, Next(scan, |u|), d + 1)
  {
    SettleOneMore(u, hole, scan);
  }

  lemma EraseShifts<V>(t: seq<Slot<V>>, erased: KvKey, u: seq<Slot<V>>, hole: nat, scan: nat, d: nat)
    requires Erasing(t, erased, u, hole, scan, d) && scan != hole && u[scan].Held? && OnPath(u, scan, hole)
    ensures Erasing(t, erased, u[hole := u[scan]][scan := Vacant], scan, Next(scan, |u|), 1)
  {
    ShiftMovesHole(u, hole, scan);
  }

  /** A vacant slot, or a whole revolution, ends the deletion. */
  lemma EraseEnds<V>(t: seq<Slot<V>>, erased: KvKey, u: seq<Slot<V>>, hole: nat, scan: nat, d: nat)
    requires Erasing(t, erased, u, hole, scan, d) && (scan == hole || u[scan].Vacant?)
    ensures Sound(u)
  {
    if scan != hole {
      VacantScanSettlesAll(u, hole, scan);
    }
  }

  /** Backward-shift deletion: the table stays well-formed and loses exactly the erased key. */
  method Erase<V>(t: seq<Slot<V>>, slot: nat) returns (u: seq<Slot<V>>)
    requires WellFormed(t) && slot < |t| && t[slot].Held?
    ensures WellFormed(u) && |u| == |t|
    ensures Contents(u) == Contents(t) - {t[slot].key}
  {
    var n := |t|;
    ContentsMeans(t);
    ghost var erased, d: nat := t[slot].key, 1;
    EraseStarts(t, slot);
    var hole: nat := slot;
    u := t[hole := Vacant];
    var scan: nat := Next(hole, n);
    while scan != hole
      invariant |u| == n && Erasing(t, erased, u, hole, scan, d)
      decreases TotalDisplacement(u, |u|), n - d
    {
      if u[scan].Vacant? {
        break;
      }
      var home := Home(u[scan].key, n);
      if Dist(home, hole, n) >= Dist(home, scan, n) {
        EraseSkips(t, erased, u, hole, scan, d);
        scan, d := Next(scan, n), d + 1;
        continue;
      }
      EraseShifts(t, erased, u, hole, scan, d);
      ShiftLowersDisplacement(u, hole, scan);
      u := u[hole := u[scan]][scan := Vacant];
      hole, scan, d := scan, Next(scan, n), 1;
    }
    EraseEnds(t, erased, u, hole, scan, d);
    WellFormedMeans(u);
    ContentsMeans(u);
  }

  // ---- Load ----------------------------------------------------------------

  /** The keys of the first `k` slots of a full table. */
  ghost function KeysUpTo<V>(t: seq<Slot<V>>, k: nat): set<KvKey>
    requires k <= |t| && forall i :: 0 <= i < |t| ==> t[i].Held?
  {
    if k == 0 then {} else KeysUpTo(t, k - 1) + {t[k - 1].key}
  }

  lemma {:induction false} FullTableCountsKeys<V>(t: seq<Slot<V>>, k: nat)
    requires Distinct(t) && k <= |t| && forall i :: 0 <= i < |t| ==> t[i].Held?
    ensures |KeysUpTo(t, k)| == k && KeysUpTo(t, k) <= Keys(t)
    ensures forall i :: k <= i < |t| ==> t[i].key !in KeysUpTo(t, k)
  {
    if k > 0 {
      FullTableCountsKeys(t, k - 1);
    }
  }

  /** A table whose map is smaller than its slot count has a vacant slot. */
  lemma SmallMapLeavesVacancy<V>(t: seq<Slot<V>>)
    requires Distinct(t) && |Entries(t)| < |t|
    ensures exists e :: 0 <= e < |t| && t[e].Vacant?
  {
    if forall e :: 0 <= e < |t| ==> t[e].Held? {
      FullTableCountsKeys(t, |t|);
      SubsetIsSmaller(KeysUpTo(t, |t|), Entries(t).Keys);
      assert false;
    }
  }

  lemma UnfilledTableHasVacancy<V>(t: seq<Slot<V>>)
    requires WellFormed(t) && |Contents(t)| < |t|
    ensures exists e :: 0 <= e < |t| && t[e].Vacant?
  {
    ContentsMeans(t);
    SmallMapLeavesVacancy(t);
  }

  /** A freshly filled table is empty. */
  lemma VacantTableIsEmpty<V>(t: seq<Slot<V>>)
    requires 0 < |t| < SATURATED && forall i :: 0 <= i < |t| ==> t[i].Vacant?
    ensures WellFormed(t) && Contents(t) == map[]
  {
    WellFormedMeans(t);
    ContentsMeans(t);
  }
}
