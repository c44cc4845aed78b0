/** The binary heap of merge candidates, least rank and then leftmost symbol first. */
module MergeHeap {

  /** A proposed merge, with the generations its two symbols had when it was proposed. */
  datatype Candidate = Candidate(rank: nat, left: nat, leftGeneration: nat, rightGeneration: nat)

  /** Rank first, then the left symbol. */
  predicate Precedes(a: Candidate, b: Candidate) {
    a.rank < b.rank || (a.rank == b.rank && a.left < b.left)
  }

  predicate AtMost(a: Candidate, b: Candidate) { !Precedes(b, a) }

  /** `(i - 1) / 2` */
  function Parent(i: nat): (p: nat)
    requires i > 0
    ensures 2 * p + 1 <= i <= 2 * p + 2
  {
    if i <= 2 then 0 else 1 + Parent(i - 2)
  }

  ghost predicate InOrder(h: seq<Candidate>, i: nat)
    requires 0 < i < |h|
  {
    AtMost(h[Parent(i)], h[i])
  }

  ghost predicate IsHeap(h: seq<Candidate>) {
    forall i :: 0 < i < |h| ==> InOrder(h, i)
  }

  lemma {:induction false} RootIsLeast(h: seq<Candidate>, i: nat)
    requires IsHeap(h) && i < |h|
    ensures AtMost(h[0], h[i])
  {
    if i > 0 {
      assert InOrder(h, i);
      RootIsLeast(h, Parent(i));
    }
  }

  function Swapped(h: seq<Candidate>, i: nat, j: nat): (r: seq<Candidate>)
    requires i < |h| && j < |h|
    ensures |r| == |h| && multiset(r) == multiset(h)
  {
    h[i := h[j]][j := h[i]]
  }

  // ---- Push ----------------------------------------------------------------

  /** Everything is in order but `i` against its parent. */
  ghost predicate Rising(h: seq<Candidate>, i: nat) {
    && i < |h|
    && (forall k :: 0 < k < |h| && k != i ==> InOrder(h, k))
    && (i > 0 ==> forall k :: 0 < k < |h| && Parent(k) == i ==> AtMost(h[Parent(i)], h[k]))
  }

  lemma RisesOneLevel(h: seq<Candidate>, i: nat)
    requires Rising(h, i) && i > 0 && Precedes(h[i], h[Parent(i)])
    ensures Rising(Swapped(h, i, Parent(i)), Parent(i))
  {
    var p, r := Parent(i), Swapped(h, i, Parent(i));
    forall k | 0 < k < |r| && k != p ensures InOrder(r, k) {
      assert k != i ==> InOrder(h, k);
    }
    forall k | 0 < k < |r| && Parent(k) == p && p > 0 ensures AtMost(r[Parent(p)], r[k]) {
      assert InOrder(h, p);
      assert k != i ==> InOrder(h, k);
    }
  }

  method Push(heap: seq<Candidate>, c: Candidate) returns (h: seq<Candidate>)
    requires IsHeap(heap)
    ensures IsHeap(h) && multiset(h) == multiset(heap) + multiset{c} && |h| == |heap| + 1
  {
    h := heap + [c];
    var i: nat := |heap|;
    forall k | 0 < k < |h| && k != i ensures InOrder(h, k) {
      assert InOrder(heap, k);
    }
    while i > 0
      invariant Rising(h, i) && multiset(h) == multiset(heap) + multiset{c} && |h| == |heap| + 1
    {
      var parent := Parent(i);
      if !Precedes(h[i], h[parent]) {
        break;
      }
      RisesOneLevel(h, i);
      h := Swapped(h, i, parent);
      i := parent;
    }
  }

  // ---- Pop -----------------------------------------------------------------

  /** Everything is in order but `i` against its children. */
  ghost predicate Sinking(h: seq<Candidate>, i: nat) {
    && i < |h|
    && (forall k :: 0 < k < |h| && Parent(k) != i ==> InOrder(h, k))
    && (i > 0 ==> forall k :: 0 < k < |h| && Parent(k) == i ==> AtMost(h[Parent(i)], h[k]))
  }

  /** The child that precedes the other. */
  function BestChild(h: seq<Candidate>, i: nat): (b: nat)
    requires 2 * i + 1 < |h|
    ensures 0 < b < |h| && Parent(b) == i
    ensures forall k :: 0 < k < |h| && Parent(k) == i ==> AtMost(h[b], h[k])
  {
    var left, right := 2 * i + 1, 2 * i + 2;
    if right < |h| && Precedes(h[right], h[left]) then right else left
  }

  lemma SinksOneLevel(h: seq<Candidate>, i: nat)
    requires Sinking(h, i) && 2 * i + 1 < |h| && Precedes(h[BestChild(h, i)], h[i])
    ensures Sinking(Swapped(h, i, BestChild(h, i)), BestChild(h, i))
  {
    var b := BestChild(h, i);
    var r := Swapped(h, i, b);
    forall k | 0 < k < |r| && Parent(k) != b ensures InOrder(r, k) {
      assert Parent(k) != i ==> InOrder(h, k);
    }
    forall k | 0 < k < |r| && Parent(k) == b ensures AtMost(r[Parent(b)], r[k]) {
      assert InOrder(h, k);
    }
  }

  lemma LastMovesToRoot(heap: seq<Candidate>)
    requires IsHeap(heap) && heap != []
    ensures |heap| == 1 ==> multiset(heap) == multiset{heap[0]}
    ensures |heap| > 1 ==>
      var h := [heap[|heap| - 1]] + heap[1..|heap| - 1];
      multiset(heap) == multiset(h) + multiset{heap[0]} && Sinking(h, 0)
  {
    var count := |heap| - 1;
    if count == 0 {
      assert heap == [heap[0]];
    } else {
      var h := [heap[count]] + heap[1..count];
      assert heap == [heap[0]] + heap[1..count] + [heap[count]];
      forall k | 0 < k < |h| && Parent(k) != 0 ensures InOrder(h, k) {
        assert InOrder(heap, k);
      }
    }
  }

  /** Take the least candidate. */
  method Pop(heap: seq<Candidate>) returns (c: Candidate, h: seq<Candidate>)
    requires IsHeap(heap) && heap != []
    ensures IsHeap(h) && multiset(heap) == multiset(h) + multiset{c} && |h| == |heap| - 1
    ensures forall d :: d in heap ==> AtMost(c, d)
  {
    c := heap[0];
    forall d | d in heap ensures AtMost(c, d) {
      var i :| 0 <= i < |heap| && heap[i] == d;
      RootIsLeast(heap, i);
    }
    var count := |heap| - 1;
    LastMovesToRoot(heap);
    if count == 0 {
      return c, [];
    }
    h := [heap[count]] + heap[1..count];
    var i: nat := 0;
    while 2 * i + 1 < count
      invariant Sinking(h, i) && multiset(heap) == multiset(h) + multiset{c} && |h| == count
      decreases count - i
    {
      var best := BestChild(h, i);
      if !Precedes(h[best], h[i]) {
        break;
      }
      SinksOneLevel(h, i);
      h := Swapped(h, i, best);
      i := best;
    }
  }
}
