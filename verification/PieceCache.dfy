/**
 * The memo of encoded pieces: an open-addressed table of short pieces whose token
 * lists lie in one growing pool. Whatever it holds is the encoding it would replay.
 */
module PieceCache {
  import opened Arithmetic
  import opened Results
  import opened ByteText
  import opened NaiveBpe
  import opened PieceEncoding

  const INLINE_BYTES := 32

  /** A filled slot has a hash that is not zero. */
  datatype Entry = Entry(hash: nat, piece: seq<Byte>, offset: nat, count: nat)

  datatype Cache = Cache(entries: seq<Entry>, pool: seq<nat>, used: nat)

  type PieceHash = seq<Byte> -> nat

  /** The hash of a piece, moved off the value that marks empty slots. */
  function Hash(h: PieceHash, text: seq<Byte>): (r: nat)
    ensures r > 0
  {
    if h(text) == 0 then 1 else h(text)
  }

  /** Slot `n` places after `start`, around the end of a table of `size` slots. */
  function Around(start: nat, n: nat, size: nat): (r: nat)
    requires start < size && n <= size
    ensures r < size
  {
    if start + n < size then start + n else start + n - size
  }

  // ---- What an entry may hold ----------------------------------------------

  /** A filled entry replays the encoding of its piece. */
  ghost predicate EntrySound(m: Merges, t: ByteTokens, c: Cache, i: nat)
    requires i < |c.entries|
  {
    var e := c.entries[i];
    e.hash != 0 ==>
      && e.offset + e.count <= c.used <= |c.pool|
      && EncodePiece(m, t, e.piece) == Ok(c.pool[e.offset..e.offset + e.count])
  }

  ghost predicate CacheSound(m: Merges, t: ByteTokens, c: Cache) {
    c.used <= |c.pool| && forall i :: 0 <= i < |c.entries| ==> EntrySound(m, t, c, i)
  }

  ghost predicate IsEmpty(c: Cache) {
    c.used <= |c.pool| && forall i :: 0 <= i < |c.entries| ==> c.entries[i].hash == 0
  }

  lemma EmptyIsSound(m: Merges, t: ByteTokens, c: Cache)
    requires IsEmpty(c)
    ensures CacheSound(m, t, c)
  {
  }

  // ---- Lookup --------------------------------------------------------------

  /** Probing stops at a free slot or at the piece itself. */
  predicate StopsAt(c: Cache, hash: nat, text: seq<Byte>, i: nat)
    requires i < |c.entries|
  {
    c.entries[i].hash == 0 || (c.entries[i].hash == hash && c.entries[i].piece == text)
  }

  /** The first stopping slot on the probe path, or none. */
  method Lookup(c: Cache, home: nat, hash: nat, text: seq<Byte>) returns (slot: Option<nat>, ghost steps: nat)
    requires c.entries != [] ==> home < |c.entries|
    ensures c.entries == [] ==> slot.None?
    ensures slot.Some? ==> steps < |c.entries| && slot.value == Around(home, steps, |c.entries|)
    ensures slot.Some? ==> StopsAt(c, hash, text, slot.value)
    ensures slot.Some? ==> forall k :: 0 <= k < steps ==> !StopsAt(c, hash, text, Around(home, k, |c.entries|))
    ensures slot.None? && c.entries != [] ==>
      forall k :: 0 <= k < |c.entries| ==> !StopsAt(c, hash, text, Around(home, k, |c.entries|))
  {
    var size := |c.entries|;
    if size == 0 {
      return None, 0;
    }
    var at := home;
    for k := 0 to size
      invariant at < size && at == (if k < size then Around(home, k, size) else home)
      invariant forall j :: 0 <= j < k ==> !StopsAt(c, hash, text, Around(home, j, size))
    {
      if StopsAt(c, hash, text, at) {
        return Some(at), k;
      }
      at := if at + 1 == size then 0 else at + 1;
    }
    return None, size;
  }

  // ---- Insertion -----------------------------------------------------------

  /** Record `tokens` for a piece in a free slot, when the pool has room. */
  function Remember(c: Cache, slot: nat, hash: nat, text: seq<Byte>, tokens: seq<nat>): (r: Cache)
    requires slot < |c.entries| && c.used <= |c.pool|
    ensures |r.entries| == |c.entries| && |r.pool| == |c.pool|
  {
    if |tokens| > |c.pool| - c.used then c
    else
      Cache(c.entries[slot := Entry(hash, text, c.used, |tokens|)],
            c.pool[..c.used] + tokens + c.pool[c.used + |tokens|..], c.used + |tokens|)
  }

  /** Remembering an encoding keeps every entry sound: the pool is only ever appended to. */
  lemma RememberKeepsSound(m: Merges, t: ByteTokens, c: Cache, slot: nat, hash: nat, text: seq<Byte>, tokens: seq<nat>)
    requires CacheSound(m, t, c) && slot < |c.entries| && EncodePiece(m, t, text) == Ok(tokens)
    ensures CacheSound(m, t, Remember(c, slot, hash, text, tokens))
  {
    var r := Remember(c, slot, hash, text, tokens);
    if |tokens| <= |c.pool| - c.used {
      forall i | 0 <= i < |r.entries| ensures EntrySound(m, t, r, i) {
        var e := r.entries[i];
        if i == slot {
          assert r.pool[e.offset..e.offset + e.count] == tokens;
        } else if e.hash != 0 {
          assert EntrySound(m, t, c, i);
          assert r.pool[e.offset..e.offset + e.count] == c.pool[e.offset..e.offset + e.count];
        }
      }
    }
  }

  // ---- What stays in the cache ---------------------------------------------

  /** Where the probe path of a piece starts. */
  function Home(h: PieceHash, c: Cache, text: seq<Byte>): (r: nat)
    requires c.entries != []
    ensures r < |c.entries|
  {
    Remainder(Hash(h, text), |c.entries|)
  }

  /** Probing for a piece stops `k` slots down its path. */
  ghost predicate FirstStop(h: PieceHash, c: Cache, text: seq<Byte>, k: nat)
    requires c.entries != []
  {
    var home := Home(h, c, text);
    && k < |c.entries|
    && StopsAt(c, Hash(h, text), text, Around(home, k, |c.entries|))
    && forall j :: 0 <= j < k ==> !StopsAt(c, Hash(h, text), text, Around(home, j, |c.entries|))
  }

  /** The piece is in the cache, where a lookup finds it. */
  ghost predicate IsCached(h: PieceHash, c: Cache, text: seq<Byte>) {
    && c.entries != []
    && exists k :: FirstStop(h, c, text, k) && c.entries[Around(Home(h, c, text), k, |c.entries|)].hash != 0
  }

  /** The probe path of a piece leads to the piece or to a free slot. */
  ghost predicate HasPlace(h: PieceHash, c: Cache, text: seq<Byte>) {
    c.entries != [] && exists k :: FirstStop(h, c, text, k)
  }

  /** A probe path stops in one place only. */
  lemma StopIsUnique(h: PieceHash, c: Cache, text: seq<Byte>, k: nat)
    requires c.entries != [] && FirstStop(h, c, text, k)
    ensures IsCached(h, c, text) <==> c.entries[Around(Home(h, c, text), k, |c.entries|)].hash != 0
  {
    if IsCached(h, c, text) {
      var k': nat :| FirstStop(h, c, text, k') && c.entries[Around(Home(h, c, text), k', |c.entries|)].hash != 0;
      assert k == k';
    }
  }

  /** A remembered piece is found from then on. */
  lemma RememberedIsFound(h: PieceHash, c: Cache, text: seq<Byte>, tokens: seq<nat>, k: nat)
    requires c.entries != [] && FirstStop(h, c, text, k) && c.used + |tokens| <= |c.pool|
    ensures IsCached(h, Remember(c, Around(Home(h, c, text), k, |c.entries|), Hash(h, text), text, tokens), text)
  {
    var home := Home(h, c, text);
    var slot := Around(home, k, |c.entries|);
    var r := Remember(c, slot, Hash(h, text), text, tokens);
    forall j | 0 <= j < k ensures Around(home, j, |c.entries|) != slot {
    }
    assert FirstStop(h, r, text, k);
  }

  /** What is in the cache stays there when a free slot is filled. */
  lemma NothingIsForgotten(h: PieceHash, c: Cache, slot: nat, hash: nat, text: seq<Byte>, tokens: seq<nat>,
                           other: seq<Byte>)
    requires slot < |c.entries| && c.used <= |c.pool| && c.entries[slot].hash == 0 && hash > 0
    requires IsCached(h, c, other)
    ensures IsCached(h, Remember(c, slot, hash, text, tokens), other)
  {
    var home := Home(h, c, other);
    var k: nat :| FirstStop(h, c, other, k) && c.entries[Around(home, k, |c.entries|)].hash != 0;
    var r := Remember(c, slot, hash, text, tokens);
    forall j | 0 <= j < k ensures Around(home, j, |c.entries|) != slot {
      if Around(home, j, |c.entries|) == slot {
        assert StopsAt(c, Hash(h, other), other, slot);
      }
    }
    assert FirstStop(h, r, other, k);
  }

  /** Nothing is forgotten, and the piece is cached if its path and the pool have room for it. */
  ghost predicate Learns(h: PieceHash, c: Cache, next: Cache, text: seq<Byte>, tokens: seq<nat>) {
    && (forall other :: IsCached(h, c, other) ==> IsCached(h, next, other))
    && (HasPlace(h, c, text) && c.pool != [] && c.used + |tokens| <= |c.pool| ==> IsCached(h, next, text))
  }

  lemma RememberLearns(h: PieceHash, c: Cache, text: seq<Byte>, tokens: seq<nat>, k: nat)
    requires c.entries != [] && c.used <= |c.pool| && FirstStop(h, c, text, k) && !IsCached(h, c, text)
    ensures var slot := Around(Home(h, c, text), k, |c.entries|);
      Learns(h, c, Remember(c, slot, Hash(h, text), text, tokens), text, tokens)
  {
    var slot := Around(Home(h, c, text), k, |c.entries|);
    StopIsUnique(h, c, text, k);
    if c.used + |tokens| <= |c.pool| {
      RememberedIsFound(h, c, text, tokens, k);
    }
    forall other | IsCached(h, c, other) ensures IsCached(h, Remember(c, slot, Hash(h, text), text, tokens), other) {
      NothingIsForgotten(h, c, slot, Hash(h, text), text, tokens, other);
    }
  }
}
