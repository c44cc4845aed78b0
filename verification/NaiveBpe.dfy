/**
 * Byte-pair merging as the reference describes it: while some adjacent pair can
 * be merged, merge the one of least rank, the leftmost of those.
 */
module NaiveBpe {
  import opened Results

  /** Which pairs merge: the rank of the rule and the token that replaces the pair. */
  type Merges = map<(nat, nat), (nat, nat)>

  predicate CanMerge(m: Merges, s: seq<nat>, i: nat) {
    i + 1 < |s| && (s[i], s[i + 1]) in m
  }

  function RankAt(m: Merges, s: seq<nat>, i: nat): nat
    requires CanMerge(m, s, i)
  {
    m[(s[i], s[i + 1])].0
  }

  /** Replace the pair at `i` by one token. */
  function MergeAt(s: seq<nat>, i: nat, token: nat): (r: seq<nat>)
    requires i + 1 < |s|
    ensures |r| == |s| - 1
  {
    s[..i] + [token] + s[i + 2..]
  }

  /** The pair at `i` has the least rank, and no pair further left has the same. */
  ghost predicate IsBest(m: Merges, s: seq<nat>, i: nat) {
    && CanMerge(m, s, i)
    && forall j :: 0 <= j && CanMerge(m, s, j) ==>
         RankAt(m, s, i) < RankAt(m, s, j) || (RankAt(m, s, i) == RankAt(m, s, j) && i <= j)
  }

  /** The best pair among the first `n` positions. */
  function BestUpTo(m: Merges, s: seq<nat>, n: nat): (r: Option<nat>)
    ensures r.None? ==> forall j :: 0 <= j < n ==> !CanMerge(m, s, j)
    ensures r.Some? ==> r.value < n && CanMerge(m, s, r.value)
    ensures r.Some? ==> forall j :: 0 <= j < n && CanMerge(m, s, j) ==>
      RankAt(m, s, r.value) < RankAt(m, s, j) || (RankAt(m, s, r.value) == RankAt(m, s, j) && r.value <= j)
  {
    if n == 0 then None
    else
      var b := BestUpTo(m, s, n - 1);
      if CanMerge(m, s, n - 1) && (b.None? || RankAt(m, s, n - 1) < RankAt(m, s, b.value)) then Some(n - 1) else b
  }

  /** Merge until nothing merges. */
  function Encode(m: Merges, s: seq<nat>): seq<nat>
    decreases |s|
  {
    var best := BestUpTo(m, s, |s|);
    if best.None? then s
    else Encode(m, MergeAt(s, best.value, m[(s[best.value], s[best.value + 1])].1))
  }

  /** The best pair is unique, so merging it is one step of the reference. */
  lemma BestStep(m: Merges, s: seq<nat>, i: nat)
    requires IsBest(m, s, i)
    ensures Encode(m, s) == Encode(m, MergeAt(s, i, m[(s[i], s[i + 1])].1))
  {
    var best := BestUpTo(m, s, |s|);
    assert CanMerge(m, s, i);
    assert best == Some(i);
  }

  lemma NothingMerges(m: Merges, s: seq<nat>)
    requires forall i :: 0 <= i ==> !CanMerge(m, s, i)
    ensures Encode(m, s) == s
  {
  }

  /** The result is final: nothing in it merges. */
  lemma {:induction false} EncodeIsFinal(m: Merges, s: seq<nat>)
    ensures forall i :: 0 <= i ==> !CanMerge(m, Encode(m, s), i)
    decreases |s|
  {
    var best := BestUpTo(m, s, |s|);
    if best.Some? {
      EncodeIsFinal(m, MergeAt(s, best.value, m[(s[best.value], s[best.value + 1])].1));
    }
  }
}
