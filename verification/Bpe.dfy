/** The merge loop of the byte-level tokenizer: it computes the reference encoding of a piece. */
module Bpe {
  import opened Results
  import opened Sequences
  import opened ByteText
  import opened MergeHeap
  import opened NaiveBpe
  import opened MergeChain
  import opened PieceEncoding
  import opened PieceCache
  import opened Encodings

  /** What encoding one piece emits. A byte without a token counts as an invalid segment. */
  function PieceOutput(m: Merges, t: ByteTokens, text: seq<Byte>): Output {
    match EncodePiece(m, t, text)
    case Ok(tokens) => Output(tokens, 0, None)
    case Err(e) => Output([], 1, Some(e))
  }

  function Ended(out: Output): Result<(), Error> {
    if out.error.Some? then Err(out.error.value) else Ok(())
  }

  lemma EmptyPiece(m: Merges, t: ByteTokens)
    ensures PieceOutput(m, t, []) == NOTHING
  {
    assert Initial(t, []) == [];
    NothingMerges(m, []);
  }

  class Workspace {
    var maximum: nat
    var symbols: Symbols
    var heap: seq<Candidate>
    var heapCapacity: nat
    var cache: Cache

    ghost predicate Ready()
      reads this
    {
      Sized(symbols, maximum) && heapCapacity == 4 * maximum + 16 <= 0xFFFF_FFFF
    }

    constructor ()
      ensures Ready() && maximum == 0 && IsEmpty(cache)
    {
      maximum, heapCapacity, heap := 0, 16, [];
      symbols := Symbols([], [], [], []);
      cache := Cache(seq(16384, _ => Entry(0, [], 0, 0)), seq(262144, _ => 0), 0);
    }

    /** Grow the symbol buffers, never shrinking them. */
    method EnsureSymbolBuffers(count: nat) returns (r: Result<(), Error>)
      requires Ready()
      modifies this`maximum, this`symbols, this`heap, this`heapCapacity
      ensures Ready()
      ensures r.Ok? <==> (old(maximum) > 0 && old(maximum) >= count) || 4 * count + 16 <= 0xFFFF_FFFF
      ensures r.Ok? ==> maximum == if old(maximum) > 0 && old(maximum) >= count then old(maximum) else count
      ensures r.Err? ==> r.error == CapacityExceeded && maximum == old(maximum)
    {
      if |symbols.token| > 0 && maximum >= count {
        return Ok(());
      }
      if count > 0x3FFF_FFFB {
        return Err(CapacityExceeded);
      }
      maximum := count;
      heapCapacity := count * 4 + 16;
      var zeros := seq(count, _ => 0);
      symbols := Symbols(zeros, zeros, zeros, zeros);
      heap := [];
      return Ok(());
    }

    /** A workspace for `count` symbols, with an empty cache. */
    static method New(count: nat) returns (r: Result<Workspace, Error>)
      ensures r.Ok? <==> 0 < count && 4 * count + 16 <= 0xFFFF_FFFF
      ensures r.Ok? ==> fresh(r.value) && r.value.Ready() && r.value.maximum == count && IsEmpty(r.value.cache)
      ensures r.Err? ==> r.error in {InvalidArgument, CapacityExceeded}
    {
      if count == 0 {
        return Err(InvalidArgument);
      }
      var w := new Workspace();
      var grown := w.EnsureSymbolBuffers(count);
      if grown.Err? {
        return Err(grown.error);
      }
      return Ok(w);
    }

    /** Add a candidate, within the heap's capacity. */
    method HeapPush(c: Candidate) returns (r: Result<(), Error>)
      requires IsHeap(heap)
      modifies this`heap
      ensures IsHeap(heap)
      ensures r.Ok? <==> old(|heap|) < heapCapacity
      ensures r.Ok? ==> multiset(heap) == multiset(old(heap)) + multiset{c} && |heap| == old(|heap|) + 1
      ensures r.Err? ==> r.error == CapacityExceeded && heap == old(heap)
    {
      if |heap| >= heapCapacity {
        return Err(CapacityExceeded);
      }
      heap := Push(heap, c);
      return Ok(());
    }

    /** Propose the pair that starts at symbol `left`, at chain position `p`, if it can merge. */
    method PushPairCandidate(m: Merges, left: nat, ghost n: nat, ghost live: seq<nat>, ghost p: int, ghost hi: int)
      returns (r: Result<(), Error>)
      requires IsHeap(heap) && |heap| < heapCapacity && TracksBut(m, symbols, n, live, multiset(heap), p, hi)
      requires p < |live| && left == LiveAt(live, p)
      modifies this`heap
      ensures r.Ok? && IsHeap(heap) && |heap| <= old(|heap|) + 1
      ensures TracksBut(m, symbols, n, live, multiset(heap), p + 1, hi)
    {
      if left == NONE {
        UnmergeableIsCovered(m, symbols, n, live, multiset(heap), p, hi);
        return Ok(());
      }
      assert LinkedAt(symbols, live, p);
      var right := symbols.next[left];
      if right == NONE || (symbols.token[left], symbols.token[right]) !in m {
        UnmergeableIsCovered(m, symbols, n, live, multiset(heap), p, hi);
        return Ok(());
      }
      PushCovers(m, symbols, n, live, multiset(heap), p, hi);
      var rank := m[(symbols.token[left], symbols.token[right])].0;
      r := HeapPush(Candidate(rank, left, symbols.generation[left], symbols.generation[right]));
    }

    /** Link one symbol for each byte; a byte without a token stops the encode. */
    method LinkBytes(t: ByteTokens, text: seq<Byte>) returns (r: Result<(), Error>)
      requires Ready() && |text| <= maximum
      modifies this`symbols
      ensures Ready()
      ensures r == if AllMapped(t, text) then Ok(()) else Err(NotFound)
      ensures r.Ok? ==> symbols.token[..|text|] == Initial(t, text)
      ensures r.Ok? ==> forall k :: 0 <= k < |text| ==>
        && symbols.next[k] == (if k + 1 < |text| then k + 1 else NONE)
        && symbols.previous[k] == if k > 0 then k - 1 else NONE
    {
      var n := |text|;
      for i := 0 to n
        invariant Ready() && AllMapped(t, text[..i])
        invariant symbols.token[..i] == Initial(t, text)[..i]
        invariant forall k :: 0 <= k < i ==>
          && symbols.next[k] == (if k + 1 < n then k + 1 else NONE)
          && symbols.previous[k] == if k > 0 then k - 1 else NONE
      {
        var token := t[text[i]];
        if token == NO_TOKEN {
          return Err(NotFound);
        }
        symbols := Symbols(
          symbols.token[i := token],
          symbols.previous[i := if i == 0 then NONE else i - 1],
          symbols.next[i := if i + 1 < n then i + 1 else NONE],
          symbols.generation[i := 1]);
      }
      assert text[..n] == text && Initial(t, text)[..n] == Initial(t, text);
      return Ok(());
    }

    /** Propose every pair of the freshly linked chain. */
    method ProposeAll(m: Merges, ghost n: nat, count: nat) returns (r: Result<(), Error>)
      requires Ready() && n == count && 0 < n <= maximum && heap == []
      requires TracksBut(m, symbols, n, UpTo(n), multiset{}, 0, n)
      modifies this`heap
      ensures r.Ok? && IsHeap(heap) && |heap| <= n && Tracks(m, symbols, n, UpTo(n), multiset(heap))
    {
      for i := 0 to count - 1
        invariant IsHeap(heap) && |heap| <= i && TracksBut(m, symbols, n, UpTo(n), multiset(heap), i, n)
      {
        r := PushPairCandidate(m, i, n, UpTo(n), i, n);
      }
      UnmergeableIsCovered(m, symbols, n, UpTo(n), multiset(heap), n - 1, n);
      return Ok(());
    }

    /** Merge the pair of an accepted candidate, at chain position `p`, and propose its two new pairs. */
    method MergePair(m: Merges, c: Candidate, ghost n: nat, ghost live: seq<nat>, ghost p: nat)
      returns (ghost after: seq<nat>)
      requires Ready() && n <= maximum && IsHeap(heap) && |heap| + 2 <= heapCapacity
      requires Tracks(m, symbols, n, live, multiset(heap) + multiset{c}) && Accepts(m, symbols, n, c)
      requires p + 1 < |live| && CanMerge(m, Tokens(symbols, live), p) && Accurate(m, symbols, live, p) == c
      requires IsBest(m, Tokens(symbols, live), p)
      modifies this`symbols, this`heap
      ensures Ready() && IsHeap(heap) && |heap| <= old(|heap|) + 2
      ensures Tracks(m, symbols, n, after, multiset(heap)) && |after| == |live| - 1
      ensures Encode(m, Tokens(symbols, after)) == Encode(m, Tokens(old(symbols), live))
    {
      ghost var token := MergeStep(m, symbols, n, live, multiset(heap), p);
      var left := c.left;
      var right, previous := symbols.next[left], symbols.previous[left];
      after := Without(live, p);
      symbols := Merged(symbols, left, right, m[(symbols.token[left], symbols.token[right])].1);
      var first := PushPairCandidate(m, previous, n, after, p - 1, p + 1);
      var second := PushPairCandidate(m, left, n, after, p, p + 1);
      NothingSkipped(m, symbols, n, after, multiset(heap), p + 1);
    }

    /** Read the chain off into a list of tokens. */
    method ReadChain(ghost n: nat, ghost live: seq<nat>) returns (tokens: seq<nat>)
      requires Linked(symbols, n, live)
      ensures tokens == Tokens(symbols, live)
    {
      tokens := [];
      var symbol := 0;
      ghost var k := 0;
      while symbol != NONE
        invariant 0 <= k <= |live| && symbol == LiveAt(live, k) && tokens == Tokens(symbols, live)[..k]
        decreases |live| - k
      {
        assert k < |live| && LinkedAt(symbols, live, k);
        tokens := tokens + [symbols.token[symbol]];
        symbol := symbols.next[symbol];
        k := k + 1;
      }
      assert k == |live|;
    }

    /** Pop candidates until none is left or one symbol remains; stale ones are dropped unread. */
    method MergeLoop(m: Merges, n: nat, ghost start: seq<nat>) returns (ghost live: seq<nat>)
      requires Ready() && 0 < n <= maximum && IsHeap(heap) && |heap| <= n
      requires Tracks(m, symbols, n, UpTo(n), multiset(heap)) && Tokens(symbols, UpTo(n)) == start
      modifies this`symbols, this`heap
      ensures Ready() && Linked(symbols, n, live) && Tokens(symbols, live) == Encode(m, start)
    {
      live := UpTo(n);
      var count := n;
      while count > 1
        invariant Ready() && IsHeap(heap) && count == |live| <= n && |heap| + 2 * count <= 3 * n
        invariant Tracks(m, symbols, n, live, multiset(heap))
        invariant Encode(m, Tokens(symbols, live)) == Encode(m, start)
        decreases count, |heap|
      {
        if heap == [] {
          break;
        }
        ghost var full := multiset(heap);
        var c, rest := Pop(heap);
        heap := rest;
        assert full == multiset(heap) + multiset{c};
        if !Accepts(m, symbols, n, c) {
          RejectedIsStale(m, symbols, n, live, multiset(heap), c);
          continue;
        }
        ghost var p := AcceptedIsLive(m, symbols, n, live, full, c);
        AcceptedIsBest(m, symbols, n, live, full, c, p);
        live := MergePair(m, c, n, live, p);
        count := count - 1;
      }
      ExhaustedIsFinal(m, symbols, n, live, multiset(heap));
    }

    /** Encode one piece: exactly the reference encoding, whenever the piece fits the buffers. */
    method EncodeUncached(m: Merges, t: ByteTokens, text: seq<Byte>) returns (r: Result<seq<nat>, Error>)
      requires Ready()
      modifies this`symbols, this`heap
      ensures Ready()
      ensures r == if |text| > maximum then Err(CapacityExceeded) else EncodePiece(m, t, text)
    {
      if |text| == 0 {
        NothingMerges(m, Initial(t, text));
        assert Initial(t, text) == [];
        return Ok([]);
      }
      if |text| > maximum {
        return Err(CapacityExceeded);
      }
      heap := [];
      var linked := LinkBytes(t, text);
      if linked.Err? {
        return Err(linked.error);
      }
      FreshChain(m, symbols, |text|);
      var proposed := ProposeAll(m, |text|, |text|);
      ghost var live := MergeLoop(m, |text|, Initial(t, text));
      var tokens := ReadChain(|text|, live);
      return Ok(tokens);
    }

    // ---- Through the cache ---------------------------------------------------

    /** Ready, with a cache that replays only encodings of this tokenizer. */
    ghost predicate Valid(m: Merges, t: ByteTokens)
      reads this
    {
      Ready() && CacheSound(m, t, cache)
    }

    /** Encode through the merge loop and emit the tokens; answers them too. */
    method EmitUncached(m: Merges, t: ByteTokens, text: seq<Byte>, encoding: Encoding)
      returns (r: Result<seq<nat>, Error>, e: Encoding)
      requires Ready() && |text| <= maximum && Fits(encoding)
      modifies this`symbols, this`heap
      ensures Ready() && e == Deliver(encoding, PieceOutput(m, t, text)) && r == EncodePiece(m, t, text)
    {
      r := EncodeUncached(m, t, text);
      DeliverIs(encoding, PieceOutput(m, t, text));
      if r.Err? {
        assert encoding.tokens + [] == encoding.tokens;
        return r, encoding.(invalid := encoding.invalid + 1);
      }
      e := AppendAll(encoding, r.value);
    }

    /** Emit the tokens of a cached piece again: they are those of the merge loop. */
    method Replay(m: Merges, t: ByteTokens, slot: nat, encoding: Encoding) returns (e: Encoding)
      requires Valid(m, t) && Fits(encoding) && slot < |cache.entries| && cache.entries[slot].hash != 0
      ensures EncodePiece(m, t, cache.entries[slot].piece).Ok?
      ensures e == Deliver(encoding, PieceOutput(m, t, cache.entries[slot].piece))
    {
      assert EntrySound(m, t, cache, slot);
      var entry := cache.entries[slot];
      DeliverIs(encoding, PieceOutput(m, t, entry.piece));
      e := AppendAll(encoding, cache.pool[entry.offset..entry.offset + entry.count]);
    }

    /** Encode a piece that is not in the cache, and remember it in the slot where its probe path stops. */
    method EncodeAndRemember(h: PieceHash, m: Merges, t: ByteTokens, text: seq<Byte>, slot: Option<nat>,
                             ghost steps: nat, encoding: Encoding)
      returns (r: Result<(), Error>, e: Encoding)
      requires Valid(m, t) && |text| <= maximum && Fits(encoding) && cache.entries != []
      requires if slot.None? then !HasPlace(h, cache, text) else
        && FirstStop(h, cache, text, steps) && !IsCached(h, cache, text)
        && slot.value == Around(Home(h, cache, text), steps, |cache.entries|)
      modifies this`symbols, this`heap, this`cache
      ensures Valid(m, t)
      ensures e == Deliver(encoding, PieceOutput(m, t, text)) && r == Ended(PieceOutput(m, t, text))
      ensures r.Err? ==> cache == old(cache)
      ensures r.Ok? ==> Learns(h, old(cache), cache, text, PieceOutput(m, t, text).tokens)
    {
      var produced, emitted := EmitUncached(m, t, text, encoding);
      if produced.Ok? && slot.Some? {
        RememberKeepsSound(m, t, cache, slot.value, Hash(h, text), text, produced.value);
        RememberLearns(h, cache, text, produced.value, steps);
        cache := Remember(cache, slot.value, Hash(h, text), text, produced.value);
      }
      return (match produced case Ok(_) => Ok(()) case Err(x) => Err(x)), emitted;
    }

    /** Encode one piece, replaying it from the cache when it is there: the outcome is that of the merge loop. */
    method EncodeByteLevelPiece(h: PieceHash, m: Merges, t: ByteTokens, text: seq<Byte>, disableCache: bool,
                                encoding: Encoding)
      returns (r: Result<(), Error>, e: Encoding)
      requires Valid(m, t) && |text| <= maximum && Fits(encoding)
      modifies this`symbols, this`heap, this`cache
      ensures Valid(m, t)
      ensures e == Deliver(encoding, PieceOutput(m, t, text)) && r == Ended(PieceOutput(m, t, text))
      ensures disableCache || |text| > INLINE_BYTES || r.Err? || IsCached(h, old(cache), text) ==> cache == old(cache)
      ensures !disableCache && 0 < |text| <= INLINE_BYTES && r.Ok? ==>
        Learns(h, old(cache), cache, text, PieceOutput(m, t, text).tokens)
    {
      if text == [] {
        EmptyPiece(m, t);
        DeliverNothing(encoding);
        return Ok(()), encoding;
      }
      if |text| > INLINE_BYTES || disableCache || cache.entries == [] || cache.pool == [] {
        var direct, emitted := EmitUncached(m, t, text, encoding);
        return (match direct case Ok(_) => Ok(()) case Err(x) => Err(x)), emitted;
      }
      var hash := Hash(h, text);
      var slot, steps := Lookup(cache, Home(h, cache, text), hash, text);
      if slot.Some? {
        StopIsUnique(h, cache, text, steps);
      }
      if slot.Some? && cache.entries[slot.value].hash != 0 {
        e := Replay(m, t, slot.value, encoding);
        return Ok(()), e;
      }
      r, e := EncodeAndRemember(h, m, t, text, slot, steps, encoding);
    }
  }
}
