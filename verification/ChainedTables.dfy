/**
 * The tokenizer's lookup tables: an arena of entries threaded into hash buckets,
 * newest first. A well-formed table represents a finite map.
 */
module ChainedTables {
  import opened Arithmetic
  import opened Results

  /** The end of a chain: `u32::MAX`. */
  const END := 0xFFFF_FFFF

  /** An arena slot; a slot without a key is never linked. */
  datatype Entry<K, V> = Entry(key: Option<K>, value: V, next: nat)

  function Bucket<K>(hash: K -> nat, key: K, buckets: nat): (b: nat)
    requires buckets > 0
    ensures b < buckets
  {
    Remainder(hash(key), buckets)
  }

  /** Entry `i` is reached from `head`. Links point to older entries, so every chain ends. */
  ghost predicate OnChain<K, V>(entries: seq<Entry<K, V>>, head: nat, i: nat) {
    head < |entries| && (head == i || (entries[head].next < head && OnChain(entries, entries[head].next, i)))
  }

  ghost predicate KeyAt<K, V>(entries: seq<Entry<K, V>>, i: nat, key: K) {
    i < |entries| && entries[i].key == Some(key)
  }

  ghost predicate LinksAreOlder<K, V>(entries: seq<Entry<K, V>>) {
    forall i :: 0 <= i < |entries| ==> entries[i].next == END || entries[i].next < i
  }

  ghost predicate KeysAreDistinct<K, V>(entries: seq<Entry<K, V>>) {
    forall i, j :: 0 <= i < j < |entries| && entries[i].key.Some? ==> entries[i].key != entries[j].key
  }

  ghost predicate Reached<K, V>(hash: K -> nat, entries: seq<Entry<K, V>>, buckets: seq<nat>, i: nat)
    requires i < |entries| && buckets != []
  {
    entries[i].key.Some? ==> OnChain(entries, buckets[Bucket(hash, entries[i].key.value, |buckets|)], i)
  }

  /** Links go back in time, keys are distinct, and every keyed entry is on the chain of its bucket. */
  ghost predicate WellFormed<K, V>(hash: K -> nat, entries: seq<Entry<K, V>>, buckets: seq<nat>) {
    && |entries| < END && LinksAreOlder(entries) && KeysAreDistinct(entries)
    && (buckets == [] ==> forall i :: 0 <= i < |entries| ==> entries[i].key.None?)
    && (forall b :: 0 <= b < |buckets| ==> buckets[b] == END || buckets[b] < |entries|)
    && (buckets != [] ==> forall i :: 0 <= i < |entries| ==> Reached(hash, entries, buckets, i))
  }

  // ---- The map a table represents ------------------------------------------

  ghost function ContentsUpTo<K, V>(entries: seq<Entry<K, V>>, n: nat): map<K, V>
    requires n <= |entries|
  {
    if n == 0 then map[]
    else if entries[n - 1].key.None? then ContentsUpTo(entries, n - 1)
    else ContentsUpTo(entries, n - 1)[entries[n - 1].key.value := entries[n - 1].value]
  }

  ghost function Contents<K, V>(entries: seq<Entry<K, V>>): map<K, V> {
    ContentsUpTo(entries, |entries|)
  }

  /** A key is in the map exactly when some entry has it, with that entry's value. */
  lemma {:induction false} ContentsMeans<K, V>(entries: seq<Entry<K, V>>, n: nat, key: K)
    requires n <= |entries| && KeysAreDistinct(entries)
    ensures key in ContentsUpTo(entries, n) <==> exists i: nat :: i < n && KeyAt(entries, i, key)
    ensures forall i: nat :: i < n && KeyAt(entries, i, key) ==> ContentsUpTo(entries, n)[key] == entries[i].value
  {
    if n > 0 {
      ContentsMeans(entries, n - 1, key);
      if KeyAt(entries, n - 1, key) {
        forall i: nat | i < n && KeyAt(entries, i, key) ensures i == n - 1 {
        }
      } else {
        assert forall i: nat :: i < n && KeyAt(entries, i, key) ==> i < n - 1;
      }
    }
  }

  lemma {:induction false} ContentsIgnoreLater<K, V>(a: seq<Entry<K, V>>, b: seq<Entry<K, V>>, n: nat)
    requires n <= |a| <= |b| && a == b[..|a|]
    ensures ContentsUpTo(a, n) == ContentsUpTo(b, n)
  {
    if n > 0 {
      ContentsIgnoreLater(a, b, n - 1);
    }
  }

  // ---- Growing -------------------------------------------------------------

  /** A later entry disturbs no chain it is not on. */
  lemma {:induction false} ChainIgnoresNew<K, V>(entries: seq<Entry<K, V>>, e: Entry<K, V>, head: nat, i: nat)
    requires OnChain(entries, head, i)
    ensures OnChain(entries + [e], head, i)
    decreases head
  {
    if head != i {
      ChainIgnoresNew(entries, e, entries[head].next, i);
    }
  }

  lemma PushKeepsWellFormed<K, V>(hash: K -> nat, entries: seq<Entry<K, V>>, buckets: seq<nat>, key: K, value: V)
    requires WellFormed(hash, entries, buckets) && buckets != [] && |entries| + 1 < END
    requires forall i: nat :: !KeyAt(entries, i, key)
    ensures var b := Bucket(hash, key, |buckets|);
      var grown := entries + [Entry(Some(key), value, buckets[b])];
      && WellFormed(hash, grown, buckets[b := |entries|])
      && Contents(grown) == Contents(entries)[key := value]
  {
    var b := Bucket(hash, key, |buckets|);
    var e := Entry(Some(key), value, buckets[b]);
    var grown, heads := entries + [e], buckets[b := |entries|];
    ContentsIgnoreLater(entries, grown, |entries|);
    forall i, j | 0 <= i < j < |grown| && grown[i].key.Some? ensures grown[i].key != grown[j].key {
      if j == |entries| {
        assert !KeyAt(entries, i, key);
      }
    }
    forall i | 0 <= i < |grown| ensures Reached(hash, grown, heads, i) {
      if i < |entries| && grown[i].key.Some? {
        assert Reached(hash, entries, buckets, i);
        var head := buckets[Bucket(hash, grown[i].key.value, |buckets|)];
        ChainIgnoresNew(entries, e, head, i);
      }
    }
  }

  lemma SkipKeepsWellFormed<K, V>(hash: K -> nat, entries: seq<Entry<K, V>>, buckets: seq<nat>, value: V)
    requires WellFormed(hash, entries, buckets) && |entries| + 1 < END
    ensures var grown := entries + [Entry(None, value, END)];
      WellFormed(hash, grown, buckets) && Contents(grown) == Contents(entries)
  {
    var e: Entry<K, V> := Entry(None, value, END);
    var grown := entries + [e];
    ContentsIgnoreLater(entries, grown, |entries|);
    if buckets != [] {
      forall i | 0 <= i < |grown| ensures Reached(hash, grown, buckets, i) {
        if i < |entries| && grown[i].key.Some? {
          assert Reached(hash, entries, buckets, i);
          ChainIgnoresNew(entries, e, buckets[Bucket(hash, grown[i].key.value, |buckets|)], i);
        }
      }
    }
  }

  // ---- The table -----------------------------------------------------------

  datatype TableError = NotAllocated | Duplicate

  /** The least power of two that is at least `value`, for values up to `2^31`. */
  method NextPowerOfTwo(value: nat) returns (power: nat)
    ensures IsPowerOfTwo(power) && (power == 1 || Half(power) < value)
    ensures value <= 0x8000_0000 ==> value <= power
  {
    power := 1;
    assert IsPowerOfTwo(power);
    while power < value && power <= 0x7FFF_FFFF
      invariant IsPowerOfTwo(power) && 0 < power <= 0xFFFF_FFFE
      invariant power == 1 || Half(power) < value
      decreases 0x1_0000_0000 - power
    {
      power := 2 * power;
    }
  }

  class ChainedTable<K(==), V> {
    const hash: K -> nat
    var entries: seq<Entry<K, V>>
    var buckets: seq<nat>

    ghost predicate Valid()
      reads this
    {
      WellFormed(hash, entries, buckets)
    }

    ghost function Map(): map<K, V>
      reads this
    {
      Contents(entries)
    }

    /** Room for `count` entries at half load; no buckets at all for none. */
    constructor (hash: K -> nat, count: nat)
      ensures Valid() && this.hash == hash && entries == [] && Map() == map[]
      ensures count == 0 <==> buckets == []
    {
      this.hash := hash;
      entries := [];
      var size := NextPowerOfTwo(2 * count + 1);
      buckets := if count == 0 then [] else seq(size, _ => END);
    }

    /** The value of a key, found by walking its bucket's chain. */
    method Find(key: K) returns (r: Option<V>)
      requires Valid()
      ensures r == if key in Map() then Some(Map()[key]) else None
    {
      ContentsMeans(entries, |entries|, key);
      if buckets == [] {
        return None;
      }
      var at: nat := buckets[Bucket(hash, key, |buckets|)];
      forall i: nat | 0 <= i < |entries| && KeyAt(entries, i, key) ensures OnChain(entries, at, i) {
        assert Reached(hash, entries, buckets, i);
      }
      while at != END
        invariant at == END || at < |entries|
        invariant forall i: nat :: i < |entries| && KeyAt(entries, i, key) ==> OnChain(entries, at, i)
        decreases if at == END then 0 else at + 1
      {
        if entries[at].key == Some(key) {
          assert KeyAt(entries, at, key);
          return Some(entries[at].value);
        }
        at := entries[at].next;
      }
      return None;
    }

    /** Add a key that is not there yet. */
    method Insert(key: K, value: V) returns (r: Result<(), TableError>)
      requires Valid() && |entries| + 1 < END
      modifies this`entries, this`buckets
      ensures Valid()
      ensures r == if old(buckets) == [] then Err(NotAllocated)
                   else if key in old(Map()) then Err(Duplicate) else Ok(())
      ensures r.Ok? ==> Map() == old(Map())[key := value] && |entries| == old(|entries|) + 1
      ensures r.Ok? ==> |buckets| == old(|buckets|) && entries[..old(|entries|)] == old(entries)
      ensures r.Ok? ==> entries[old(|entries|)].key == Some(key) && entries[old(|entries|)].value == value
      ensures r.Err? ==> entries == old(entries) && buckets == old(buckets)
    {
      if buckets == [] {
        return Err(NotAllocated);
      }
      var found := Find(key);
      if found.Some? {
        return Err(Duplicate);
      }
      ContentsMeans(entries, |entries|, key);
      PushKeepsWellFormed(hash, entries, buckets, key, value);
      var b := Bucket(hash, key, |buckets|);
      entries, buckets := entries + [Entry(Some(key), value, buckets[b])], buckets[b := |entries|];
      return Ok(());
    }

    /** Leave an arena slot that no lookup sees. */
    method PushEmptySlot(value: V)
      requires Valid() && |entries| + 1 < END
      modifies this`entries
      ensures Valid() && Map() == old(Map()) && entries == old(entries) + [Entry(None, value, END)]
    {
      SkipKeepsWellFormed(hash, entries, buckets, value);
      entries := entries + [Entry(None, value, END)];
    }
  }
}
