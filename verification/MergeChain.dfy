/**
 * The doubly linked chain of symbols that the merge loop edits in place, and what
 * its heap of lazily invalidated candidates must know about it.
 */
module MergeChain {
  import opened Sequences
  import opened MergeHeap
  import opened NaiveBpe

  /** "No symbol": `u32::MAX`. */
  const NONE := 0xFFFF_FFFF

  datatype Symbols = Symbols(token: seq<nat>, previous: seq<nat>, next: seq<nat>, generation: seq<nat>)

  predicate Sized(s: Symbols, n: nat) {
    |s.token| == |s.previous| == |s.next| == |s.generation| == n
  }

  // ---- The live symbols ----------------------------------------------------

  ghost predicate Increasing(live: seq<nat>) {
    forall i, j :: 0 <= i < j < |live| ==> live[i] < live[j]
  }

  ghost function LiveAt(live: seq<nat>, i: int): nat {
    if 0 <= i < |live| then live[i] else NONE
  }

  /** Symbol `i` of the chain is linked to its neighbours. */
  ghost predicate LinkedAt(s: Symbols, live: seq<nat>, i: nat) {
    && i < |live| && live[i] < |s.token| && Sized(s, |s.token|)
    && s.next[live[i]] == LiveAt(live, i + 1)
    && s.previous[live[i]] == LiveAt(live, i - 1)
  }

  /** `live` are the symbols of the chain, in order: a subset of the first `n`, starting with symbol 0. */
  ghost predicate Linked(s: Symbols, n: nat, live: seq<nat>) {
    && Sized(s, |s.token|) && n <= |s.token| < NONE
    && live != [] && live[0] == 0 && Increasing(live)
    && (forall i :: 0 <= i < |live| ==> live[i] < n)
    && (forall i :: 0 <= i < |live| ==> LinkedAt(s, live, i))
  }

  ghost function TokenOf(s: Symbols, symbol: nat): nat {
    if symbol < |s.token| then s.token[symbol] else 0
  }

  /** The tokens of the chain, in order. */
  ghost function Tokens(s: Symbols, live: seq<nat>): seq<nat> {
    seq(|live|, i requires 0 <= i < |live| => TokenOf(s, live[i]))
  }

  // ---- Candidates ----------------------------------------------------------

  /** The candidate that proposes the pair at chain position `i` as it is now. */
  ghost function Accurate(m: Merges, s: Symbols, live: seq<nat>, i: nat): Candidate
    requires Sized(s, |s.token|) && i + 1 < |live| && live[i] < |s.token| && live[i + 1] < |s.token|
    requires CanMerge(m, Tokens(s, live), i)
  {
    Candidate(RankAt(m, Tokens(s, live), i), live[i], s.generation[live[i]], s.generation[live[i + 1]])
  }

  /** If the pair at position `i` can merge, the heap holds its accurate candidate. */
  ghost predicate Covered(m: Merges, s: Symbols, n: nat, live: seq<nat>, heap: multiset<Candidate>, i: nat) {
    Linked(s, n, live) && (CanMerge(m, Tokens(s, live), i) ==> Accurate(m, s, live, i) in heap)
  }

  /** A candidate is no newer than its left symbol, and older than a left symbol that has been merged away. */
  ghost predicate Aged(s: Symbols, n: nat, live: seq<nat>, c: Candidate) {
    && c.left < n <= |s.generation| && c.leftGeneration <= s.generation[c.left]
    && (c.left !in live ==> c.leftGeneration < s.generation[c.left])
  }

  /** Every pair is covered but those at positions `lo .. hi`, and every candidate is aged. */
  ghost predicate TracksBut(m: Merges, s: Symbols, n: nat, live: seq<nat>, heap: multiset<Candidate>, lo: int, hi: int)
  {
    && Linked(s, n, live)
    && (forall i {:trigger Covered(m, s, n, live, heap, i)} ::
          0 <= i < |live| && !(lo <= i < hi) ==> Covered(m, s, n, live, heap, i))
    && (forall c :: c in heap ==> Aged(s, n, live, c))
  }

  /** What the merge loop maintains. */
  ghost predicate Tracks(m: Merges, s: Symbols, n: nat, live: seq<nat>, heap: multiset<Candidate>) {
    TracksBut(m, s, n, live, heap, 0, 0)
  }

  /** A candidate the loop accepts: its symbols are as they were, and the pair still merges at that rank. */
  predicate Accepts(m: Merges, s: Symbols, n: nat, c: Candidate)
    requires Sized(s, |s.token|) && n <= |s.token|
  {
    && c.left < n && s.generation[c.left] == c.leftGeneration
    && var right := s.next[c.left];
       && right < |s.token| && right != NONE && s.generation[right] == c.rightGeneration
       && (s.token[c.left], s.token[right]) in m && m[(s.token[c.left], s.token[right])].0 == c.rank
  }

  /** Dropping a candidate the loop rejects loses nothing. */
  lemma RejectedIsStale(m: Merges, s: Symbols, n: nat, live: seq<nat>, heap: multiset<Candidate>, c: Candidate)
    requires Tracks(m, s, n, live, heap + multiset{c}) && !Accepts(m, s, n, c)
    ensures Tracks(m, s, n, live, heap)
  {
    forall i {:trigger Covered(m, s, n, live, heap, i)} | 0 <= i < |live| ensures Covered(m, s, n, live, heap, i) {
      assert Covered(m, s, n, live, heap + multiset{c}, i);
      assert LinkedAt(s, live, i);
      if CanMerge(m, Tokens(s, live), i) {
        assert c != Accurate(m, s, live, i);
      }
    }
    forall d | d in heap ensures Aged(s, n, live, d) {
      assert d in heap + multiset{c};
    }
  }

  /** An accepted candidate's left symbol is in the chain, with its right neighbour. */
  lemma AcceptedIsLive(m: Merges, s: Symbols, n: nat, live: seq<nat>, heap: multiset<Candidate>, c: Candidate)
    returns (p: nat)
    requires Tracks(m, s, n, live, heap) && c in heap && Accepts(m, s, n, c)
    ensures p + 1 < |live| && live[p] == c.left && live[p + 1] == s.next[c.left]
    ensures CanMerge(m, Tokens(s, live), p) && Accurate(m, s, live, p) == c
  {
    assert Aged(s, n, live, c);
    p :| 0 <= p < |live| && live[p] == c.left;
    assert LinkedAt(s, live, p);
  }

  /** The least candidate, when accepted, is the pair the reference merges next. */
  lemma AcceptedIsBest(m: Merges, s: Symbols, n: nat, live: seq<nat>, heap: multiset<Candidate>, c: Candidate, p: nat)
    requires Tracks(m, s, n, live, heap) && (forall d :: d in heap ==> AtMost(c, d))
    requires CanMerge(m, Tokens(s, live), p) && p + 1 < |live| && Accurate(m, s, live, p) == c
    ensures IsBest(m, Tokens(s, live), p)
  {
    var t := Tokens(s, live);
    forall j | 0 <= j && CanMerge(m, t, j)
      ensures RankAt(m, t, p) < RankAt(m, t, j) || (RankAt(m, t, p) == RankAt(m, t, j) && p <= j)
    {
      assert Covered(m, s, n, live, heap, j);
      assert AtMost(c, Accurate(m, s, live, j));
    }
  }

  // ---- One merge -----------------------------------------------------------

  /** Replace symbol `left` and its neighbour `right` by one symbol, at `left`. */
  function Merged(s: Symbols, left: nat, right: nat, token: nat): (r: Symbols)
    requires Sized(s, |s.token|) && left < |s.token| && right < |s.token|
    requires s.next[right] != NONE ==> s.next[right] < |s.token|
    ensures Sized(r, |s.token|)
  {
    var after := s.next[right];
    Symbols(
      s.token[left := token],
      if after != NONE then s.previous[after := left] else s.previous,
      s.next[left := after],
      s.generation[left := s.generation[left] + 1]
                  [right := (if left == right then s.generation[left] + 1 else s.generation[right]) + 1])
  }

  ghost function Without(live: seq<nat>, p: nat): (r: seq<nat>)
    requires p + 1 < |live|
    ensures |r| == |live| - 1
  {
    live[..p + 1] + live[p + 2..]
  }

  lemma WithoutAt(live: seq<nat>, p: nat, i: nat)
    requires p + 1 < |live| && i < |live| - 1
    ensures Without(live, p)[i] == if i <= p then live[i] else live[i + 1]
  {
  }

  lemma WithoutIncreases(live: seq<nat>, p: nat)
    requires Increasing(live) && p + 1 < |live|
    ensures Increasing(Without(live, p)) && Without(live, p)[0] == live[0]
  {
    var after := Without(live, p);
    forall i, j | 0 <= i < j < |after| ensures after[i] < after[j] {
      WithoutAt(live, p, i);
      WithoutAt(live, p, j);
    }
  }

  /** The links of a symbol that is not the merged one: only its backward link may change. */
  lemma MergedKeepsLink(s: Symbols, n: nat, live: seq<nat>, p: nat, token: nat, k: nat)
    requires Linked(s, n, live) && p + 1 < |live| && k < |live| && k != p && k != p + 1
    requires s.next[live[p + 1]] != NONE ==> s.next[live[p + 1]] < |s.token|
    ensures var r := Merged(s, live[p], live[p + 1], token);
      && r.next[live[k]] == LiveAt(live, k + 1)
      && r.previous[live[k]] == if k == p + 2 then live[p] else LiveAt(live, k - 1)
  {
    assert LinkedAt(s, live, k) && LinkedAt(s, live, p + 1);
    assert live[k] != live[p];
    if k != p + 2 {
      assert s.next[live[p + 1]] != live[k];
    }
  }

  /** The chain without symbol `p + 1`, position by position. */
  lemma WithoutNeighbours(live: seq<nat>, p: nat, i: nat)
    requires p + 1 < |live| && i < |live| - 1
    ensures var k := if i <= p then i else i + 1;
      && LiveAt(Without(live, p), i) == LiveAt(live, k)
      && LiveAt(Without(live, p), i + 1) == LiveAt(live, if i == p then k + 2 else k + 1)
      && LiveAt(Without(live, p), i - 1) == LiveAt(live, if i == p + 1 then k - 2 else k - 1)
  {
    WithoutAt(live, p, i);
    if i + 1 < |live| - 1 {
      WithoutAt(live, p, i + 1);
    }
    if i > 0 {
      WithoutAt(live, p, i - 1);
    }
  }

  /** The merged symbol is linked to the neighbours of the pair. */
  lemma MergedSymbolLinks(s: Symbols, n: nat, live: seq<nat>, p: nat, token: nat)
    requires Linked(s, n, live) && p + 1 < |live|
    requires s.next[live[p + 1]] != NONE ==> s.next[live[p + 1]] < |s.token|
    ensures var r := Merged(s, live[p], live[p + 1], token);
      r.next[live[p]] == LiveAt(live, p + 2) && r.previous[live[p]] == LiveAt(live, p - 1)
  {
    assert LinkedAt(s, live, p) && LinkedAt(s, live, p + 1);
    assert s.next[live[p + 1]] != live[p];
  }

  lemma MergedLinksAt(s: Symbols, n: nat, live: seq<nat>, p: nat, token: nat, i: nat)
    requires Linked(s, n, live) && p + 1 < |live| && i < |live| - 1
    requires s.next[live[p + 1]] != NONE ==> s.next[live[p + 1]] < |s.token|
    ensures Without(live, p)[i] < n && LinkedAt(Merged(s, live[p], live[p + 1], token), Without(live, p), i)
  {
    var k := if i <= p then i else i + 1;
    WithoutNeighbours(live, p, i);
    if i == p {
      MergedSymbolLinks(s, n, live, p, token);
    } else {
      MergedKeepsLink(s, n, live, p, token, k);
    }
  }

  lemma MergeKeepsLinked(s: Symbols, n: nat, live: seq<nat>, p: nat, token: nat)
    requires Linked(s, n, live) && p + 1 < |live|
    ensures s.next[live[p + 1]] != NONE ==> s.next[live[p + 1]] < |s.token|
    ensures Linked(Merged(s, live[p], live[p + 1], token), n, Without(live, p))
  {
    assert LinkedAt(s, live, p + 1);
    var r, after := Merged(s, live[p], live[p + 1], token), Without(live, p);
    WithoutIncreases(live, p);
    forall i | 0 <= i < |after| ensures after[i] < n && LinkedAt(r, after, i) {
      MergedLinksAt(s, n, live, p, token, i);
    }
  }

  lemma MergeKeepsTokens(s: Symbols, n: nat, live: seq<nat>, p: nat, token: nat)
    requires Linked(s, n, live) && p + 1 < |live|
    requires s.next[live[p + 1]] != NONE ==> s.next[live[p + 1]] < |s.token|
    ensures Tokens(Merged(s, live[p], live[p + 1], token), Without(live, p)) == MergeAt(Tokens(s, live), p, token)
  {
    var r, after := Merged(s, live[p], live[p + 1], token), Without(live, p);
    var t, u := Tokens(s, live), Tokens(r, after);
    forall i | 0 <= i < |after| ensures u[i] == MergeAt(t, p, token)[i] {
      WithoutAt(live, p, i);
    }
  }

  /** Pairs that do not touch the merged symbol keep their accurate candidates. */
  lemma MergeKeepsCovered(m: Merges, s: Symbols, n: nat, live: seq<nat>, heap: multiset<Candidate>, p: nat, token: nat,
                          i: nat)
    requires Linked(s, n, live) && p + 1 < |live| && CanMerge(m, Tokens(s, live), p)
    requires s.next[live[p + 1]] != NONE ==> s.next[live[p + 1]] < |s.token|
    requires i + 1 < |live| && i != p && i + 1 != p
    requires Covered(m, s, n, live, heap + multiset{Accurate(m, s, live, p)}, if i < p then i else i + 1)
    ensures Covered(m, Merged(s, live[p], live[p + 1], token), n, Without(live, p), heap, i)
  {
    var r, after := Merged(s, live[p], live[p + 1], token), Without(live, p);
    var k := if i < p then i else i + 1;
    MergeKeepsLinked(s, n, live, p, token);
    WithoutAt(live, p, i);
    if CanMerge(m, Tokens(r, after), i) {
      WithoutAt(live, p, i + 1);
      assert CanMerge(m, Tokens(s, live), k);
      assert Accurate(m, r, after, i) == Accurate(m, s, live, k) != Accurate(m, s, live, p);
    }
  }

  /** The merge makes every candidate for either symbol stale. */
  lemma MergeAges(s: Symbols, n: nat, live: seq<nat>, p: nat, token: nat, c: Candidate)
    requires Linked(s, n, live) && p + 1 < |live| && Aged(s, n, live, c)
    requires s.next[live[p + 1]] != NONE ==> s.next[live[p + 1]] < |s.token|
    ensures Aged(Merged(s, live[p], live[p + 1], token), n, Without(live, p), c)
  {
    var after := Without(live, p);
    if c.left in live && c.left != live[p + 1] {
      var i :| 0 <= i < |live| && live[i] == c.left;
      var k := if i <= p then i else i - 1;
      WithoutAt(live, p, k);
      assert after[k] == c.left;
    }
  }

  /** After a merge only the two pairs of the merged symbol need new candidates. */
  lemma MergeTracksRest(m: Merges, s: Symbols, n: nat, live: seq<nat>, heap: multiset<Candidate>, p: nat, token: nat)
    requires Linked(s, n, live) && p + 1 < |live| && CanMerge(m, Tokens(s, live), p)
    requires Tracks(m, s, n, live, heap + multiset{Accurate(m, s, live, p)})
    ensures s.next[live[p + 1]] != NONE ==> s.next[live[p + 1]] < |s.token|
    ensures TracksBut(m, Merged(s, live[p], live[p + 1], token), n, Without(live, p), heap, p - 1, p + 1)
  {
    MergeKeepsLinked(s, n, live, p, token);
    var r, after := Merged(s, live[p], live[p + 1], token), Without(live, p);
    var full := heap + multiset{Accurate(m, s, live, p)};
    forall i {:trigger Covered(m, r, n, after, heap, i)} | 0 <= i < |after| && !(p - 1 <= i < p + 1)
      ensures Covered(m, r, n, after, heap, i)
    {
      assert Covered(m, s, n, live, full, if i < p then i else i + 1);
      MergeKeepsCovered(m, s, n, live, heap, p, token, i);
    }
    forall c | c in heap ensures Aged(r, n, after, c) {
      assert c in full;
      MergeAges(s, n, live, p, token, c);
    }
  }

  /** Merging the reference's next pair is one step of the reference, and leaves two pairs to propose. */
  lemma MergeStep(m: Merges, s: Symbols, n: nat, live: seq<nat>, heap: multiset<Candidate>, p: nat) returns (token: nat)
    requires Linked(s, n, live) && p + 1 < |live| && IsBest(m, Tokens(s, live), p)
    requires Tracks(m, s, n, live, heap + multiset{Accurate(m, s, live, p)})
    ensures s.next[live[p]] == live[p + 1] && (s.token[live[p]], s.token[live[p + 1]]) in m
    ensures token == m[(s.token[live[p]], s.token[live[p + 1]])].1
    ensures s.next[live[p + 1]] != NONE ==> s.next[live[p + 1]] < |s.token|
    ensures var r, after := Merged(s, live[p], live[p + 1], token), Without(live, p);
      && TracksBut(m, r, n, after, heap, p - 1, p + 1)
      && Encode(m, Tokens(r, after)) == Encode(m, Tokens(s, live))
    ensures s.previous[live[p]] == LiveAt(Without(live, p), p - 1) && live[p] == LiveAt(Without(live, p), p)
  {
    assert LinkedAt(s, live, p);
    token := m[(s.token[live[p]], s.token[live[p + 1]])].1;
    MergeTracksRest(m, s, n, live, heap, p, token);
    MergeKeepsTokens(s, n, live, p, token);
    BestStep(m, Tokens(s, live), p);
    WithoutAt(live, p, p);
    if p > 0 {
      WithoutAt(live, p, p - 1);
    }
  }

  /** Adding the accurate candidate covers a pair. */
  lemma PushCovers(m: Merges, s: Symbols, n: nat, live: seq<nat>, heap: multiset<Candidate>, p: nat, hi: int)
    requires TracksBut(m, s, n, live, heap, p, hi) && CanMerge(m, Tokens(s, live), p)
    ensures TracksBut(m, s, n, live, heap + multiset{Accurate(m, s, live, p)}, p + 1, hi)
  {
    var more := heap + multiset{Accurate(m, s, live, p)};
    forall i {:trigger Covered(m, s, n, live, more, i)} | 0 <= i < |live| && !(p + 1 <= i < hi)
      ensures Covered(m, s, n, live, more, i)
    {
      assert i != p ==> Covered(m, s, n, live, heap, i);
    }
  }

  /** A pair that cannot merge needs no candidate. */
  lemma UnmergeableIsCovered(m: Merges, s: Symbols, n: nat, live: seq<nat>, heap: multiset<Candidate>, p: int, hi: int)
    requires TracksBut(m, s, n, live, heap, p, hi) && (p < 0 || !CanMerge(m, Tokens(s, live), p))
    ensures TracksBut(m, s, n, live, heap, p + 1, hi)
  {
    forall i {:trigger Covered(m, s, n, live, heap, i)} | 0 <= i < |live| && !(p + 1 <= i < hi)
      ensures Covered(m, s, n, live, heap, i)
    {
      assert i != p ==> Covered(m, s, n, live, heap, i);
    }
  }

  lemma NothingSkipped(m: Merges, s: Symbols, n: nat, live: seq<nat>, heap: multiset<Candidate>, p: int)
    requires TracksBut(m, s, n, live, heap, p, p)
    ensures Tracks(m, s, n, live, heap)
  {
  }

  // ---- Start and end -------------------------------------------------------

  /** Freshly linked symbols, with nothing proposed yet. */
  lemma FreshChain(m: Merges, s: Symbols, n: nat)
    requires Sized(s, |s.token|) && 0 < n <= |s.token| < NONE
    requires forall i :: 0 <= i < n ==>
      s.next[i] == (if i + 1 < n then i + 1 else NONE) && s.previous[i] == if i > 0 then i - 1 else NONE
    ensures TracksBut(m, s, n, UpTo(n), multiset{}, 0, n) && Tokens(s, UpTo(n)) == s.token[..n]
  {
    var live := UpTo(n);
    forall i | 0 <= i < n ensures LinkedAt(s, live, i) {
    }
  }

  /** With no candidate left, or no pair, the reference is done too. */
  lemma ExhaustedIsFinal(m: Merges, s: Symbols, n: nat, live: seq<nat>, heap: multiset<Candidate>)
    requires Tracks(m, s, n, live, heap) && (heap == multiset{} || |live| == 1)
    ensures Encode(m, Tokens(s, live)) == Tokens(s, live)
  {
    forall i | 0 <= i ensures !CanMerge(m, Tokens(s, live), i) {
      if i < |live| {
        assert Covered(m, s, n, live, heap, i);
      }
    }
    NothingMerges(m, Tokens(s, live));
  }
}
