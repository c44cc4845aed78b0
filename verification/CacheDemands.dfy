/**
 * When room can be made for a sequence's tokens: what the blocks it holds must be, and what the cache must have left.
 */
module CacheDemands {
  import opened Blocks
  import opened Results
  import opened CacheView
  import opened CachePrompts
  import opened CacheCapacity
  import opened CacheRoom
  import opened CacheSteps

  /** Room for `tokens` tokens of a sequence, in the first `limit` blocks of the arena where it holds blocks already. */
  datatype Demand = Demand(sequence: nat, blockTokens: nat, tokens: nat, limit: nat)

  function BlocksOf(d: Demand): nat { BlockCount(d.tokens, d.blockTokens) }

  /** Binding `k` will do as block `b`: committed, within the limit, and large enough unless it may grow. */
  ghost predicate Passes(v: View, d: Demand, k: nat, b: nat, grows: bool) {
    && Settled(v, k, d.blockTokens) && v.bindings[k].physical < d.limit
    && (v.bindings[k].tokens >= Needed(d.tokens, d.blockTokens, b) || (grows && MayGrow(v, k)))
  }

  /** Whatever the sequence holds as block `b` will do, when only `short` grows. */
  ghost predicate PassesAt(v: View, d: Demand, short: Option<nat>, b: nat) {
    forall k: nat :: At(v, k, d.sequence, EndToken(b, d.blockTokens)) ==> Passes(v, d, k, b, short == Some(k))
  }

  ghost predicate PassesUpTo(v: View, d: Demand, short: Option<nat>, n: nat) {
    n == 0 || (PassesUpTo(v, d, short, n - 1) && PassesAt(v, d, short, n - 1))
  }

  /** Every block the sequence holds will do, when one of them at most grows. */
  ghost predicate Passable(v: View, d: Demand) {
    exists short: Option<nat> :: PassesUpTo(v, d, short, BlocksOf(d))
  }

  /** The demand can be met: held blocks will do, and there is room for the others. */
  ghost predicate CanMeet(v: View, d: Demand) {
    Passable(v, d) && Room(v, Unheld(v, d.sequence, d.blockTokens, 0, BlocksOf(d)))
  }

  lemma {:induction false} PassedAt(v: View, d: Demand, short: Option<nat>, n: nat, b: nat)
    requires PassesUpTo(v, d, short, n) && b < n
    ensures PassesAt(v, d, short, b)
  {
    if b < n - 1 {
      PassedAt(v, d, short, n - 1, b);
    }
  }

  /** What will do without growing will do. */
  lemma {:induction false} PassesLater(v: View, d: Demand, later: Option<nat>, n: nat)
    requires PassesUpTo(v, d, None, n)
    ensures PassesUpTo(v, d, later, n)
  {
    if n > 0 {
      PassesLater(v, d, later, n - 1);
      assert PassesAt(v, d, later, n - 1);
    }
  }

  // ---- Midway --------------------------------------------------------------

  /** Binding `k`, of block `b`, is too short. */
  ghost predicate IsShort(v: View, d: Demand, k: nat, b: nat) {
    At(v, k, d.sequence, EndToken(b, d.blockTokens)) && v.bindings[k].tokens < Needed(d.tokens, d.blockTokens, b)
  }

  /** Midway: `b` blocks are there, `short` is the one to grow, and what is left to do takes the room that is left. */
  ghost predicate Fares(v: View, w: View, d: Demand, short: Option<nat>, b: nat) {
    && HeldSame(v, w) && GainedBelow(v, w, d.sequence, EndToken(b, d.blockTokens)) && PassesUpTo(v, d, short, b)
    && (short.Some? ==> exists c: nat :: c < b && IsShort(v, d, short.value, c))
    && (Room(v, Unheld(v, d.sequence, d.blockTokens, 0, BlocksOf(d))) <==>
        Room(w, Unheld(v, d.sequence, d.blockTokens, b, BlocksOf(d))))
  }

  ghost function FareSeal(v: View, w: View, d: Demand, short: Option<nat>, b: nat, n: nat): nat {
    if n > 0 then FareSeal(v, w, d, short, b, n - 1) else if Fares(v, w, d, short, b) then 1 else 0
  }

  /** `Fares`, sealed behind a recursion the verifier does not unroll. */
  ghost predicate Faring(v: View, w: View, d: Demand, short: Option<nat>, b: nat) {
    FareSeal(v, w, d, short, b, b + 2) == 1
  }

  lemma {:induction false} UnsealFare(v: View, w: View, d: Demand, short: Option<nat>, b: nat, n: nat)
    ensures FareSeal(v, w, d, short, b, n) == 1 <==> Fares(v, w, d, short, b)
  {
    if n > 0 {
      UnsealFare(v, w, d, short, b, n - 1);
    }
  }

  lemma OpenFaring(v: View, w: View, d: Demand, short: Option<nat>, b: nat)
    ensures Faring(v, w, d, short, b) <==> Fares(v, w, d, short, b)
  {
    UnsealFare(v, w, d, short, b, b + 2);
  }

  lemma FareStarts(v: View, epoch: nat, d: Demand)
    requires Coherent(v)
    ensures Faring(v, v.(epoch := epoch), d, None, 0)
  {
    var w := v.(epoch := epoch);
    forall k | 0 <= k < |v.bindings| ensures SameAt(v, w, k) {
      if v.bindings[k].valid {
        UsedBinding(v, k);
      }
    }
    forall k: nat, f: nat | At(w, k, d.sequence, f) ensures At(v, k, d.sequence, f) {
    }
    SameRoom(v, w, Unheld(v, d.sequence, d.blockTokens, 0, BlocksOf(d)));
    OpenFaring(v, w, d, None, 0);
  }

  /** Midway, the sequence holds at the next offset what it held at the start. */
  lemma NextIsOld(v: View, w: View, d: Demand, short: Option<nat>, b: nat, k: nat)
    requires Faring(v, w, d, short, b)
    ensures At(w, k, d.sequence, EndToken(b, d.blockTokens)) <==> At(v, k, d.sequence, EndToken(b, d.blockTokens))
  {
    OpenFaring(v, w, d, short, b);
    if At(v, k, d.sequence, EndToken(b, d.blockTokens)) {
      assert SameAt(v, w, k);
    }
  }

  lemma SamePasses(v: View, w: View, d: Demand, k: nat, b: nat, grows: bool)
    requires HeldSame(v, w) && k < |v.bindings| && v.bindings[k].valid
    ensures Passes(w, d, k, b, grows) <==> Passes(v, d, k, b, grows)
  {
    assert SameAt(v, w, k);
  }

  lemma GainedFurther(v: View, w: View, d: Demand, b: nat)
    requires GainedBelow(v, w, d.sequence, EndToken(b, d.blockTokens))
    ensures GainedBelow(v, w, d.sequence, EndToken(b + 1, d.blockTokens))
  {
  }

  /** A held block that will do. */
  lemma FareHeld(v: View, w: View, d: Demand, short: Option<nat>, b: nat, k: nat)
    requires Coherent(v) && Faring(v, w, d, short, b) && b < BlocksOf(d)
    requires At(w, k, d.sequence, EndToken(b, d.blockTokens)) && Passes(w, d, k, b, short.None?)
    ensures var enough := w.bindings[k].tokens >= Needed(d.tokens, d.blockTokens, b);
      Faring(v, w, d, if enough then short else Some(k), b + 1)
  {
    var first := EndToken(b, d.blockTokens);
    var later := if w.bindings[k].tokens >= Needed(d.tokens, d.blockTokens, b) then short else Some(k);
    NextIsOld(v, w, d, short, b, k);
    OpenFaring(v, w, d, short, b);
    OpenFaring(v, w, d, later, b + 1);
    assert SameAt(v, w, k) && HoldsAt(v, d.sequence, first);
    SamePasses(v, w, d, k, b, short.None?);
    OpenCoherent(v);
    forall l: nat | At(v, l, d.sequence, first) ensures Passes(v, d, l, b, later == Some(l)) {
      assert l == k;
    }
    if later != short {
      PassesLater(v, d, later, b);
      assert IsShort(v, d, k, b);
    }
    assert PassesUpTo(v, d, later, b + 1);
    GainedFurther(v, w, d, b);
  }

  /** Midway, a block that is missing now was missing at the start. */
  lemma UnheldNext(v: View, w: View, d: Demand, short: Option<nat>, b: nat)
    requires Faring(v, w, d, short, b) && b < BlocksOf(d) && !HoldsAt(w, d.sequence, EndToken(b, d.blockTokens))
    ensures Unheld(v, d.sequence, d.blockTokens, b, BlocksOf(d))
            == Unheld(v, d.sequence, d.blockTokens, b + 1, BlocksOf(d)) + 1
  {
    forall k: nat ensures !At(v, k, d.sequence, EndToken(b, d.blockTokens)) {
      NextIsOld(v, w, d, short, b, k);
    }
    assert !HoldsAt(v, d.sequence, EndToken(b, d.blockTokens));
  }

  /** A block that was missing and has been added. */
  lemma FareAdded(v: View, m: View, w: View, d: Demand, short: Option<nat>, b: nat)
    requires Faring(v, m, d, short, b) && b < BlocksOf(d) && d.blockTokens > 0
    requires !HoldsAt(m, d.sequence, EndToken(b, d.blockTokens))
    requires HeldSame(m, w) && OnlyAt(m, w, d.sequence, EndToken(b, d.blockTokens))
    requires var rest := Unheld(v, d.sequence, d.blockTokens, b + 1, BlocksOf(d)); Room(m, rest + 1) <==> Room(w, rest)
    ensures Faring(v, w, d, short, b + 1)
  {
    var first := EndToken(b, d.blockTokens);
    OpenFaring(v, m, d, short, b);
    OpenFaring(v, w, d, short, b + 1);
    forall k: nat ensures !At(v, k, d.sequence, first) {
      NextIsOld(v, m, d, short, b, k);
    }
    assert !HoldsAt(v, d.sequence, first);
    HeldSameChain(v, m, w);
    GainedOneMore(v, m, w, d.sequence, first, EndToken(b + 1, d.blockTokens));
    assert PassesAt(v, d, short, b);
    assert PassesUpTo(v, d, short, b + 1);
  }

  /** A binding that is too short as one block is not the binding of another. */
  lemma OtherOffset(v: View, d: Demand, l: nat, c: nat, k: nat, b: nat)
    requires IsShort(v, d, l, c) && c < b && At(v, k, d.sequence, EndToken(b, d.blockTokens))
    ensures l != k
  {
    if l == k {
      EndTokenIncreases(c + 1, b, d.blockTokens);
      assert false;
    }
  }

  /** A held block that will not do, whichever grows: the demand cannot be met. */
  lemma FareFails(v: View, w: View, d: Demand, short: Option<nat>, b: nat, k: nat)
    requires Coherent(v) && Faring(v, w, d, short, b) && b < BlocksOf(d)
    requires At(w, k, d.sequence, EndToken(b, d.blockTokens)) && !Passes(w, d, k, b, short.None?)
    ensures !Passable(v, d)
  {
    NextIsOld(v, w, d, short, b, k);
    OpenFaring(v, w, d, short, b);
    SamePasses(v, w, d, k, b, short.None?);
    forall grown: Option<nat> ensures !PassesUpTo(v, d, grown, BlocksOf(d)) {
      if PassesUpTo(v, d, grown, BlocksOf(d)) {
        PassedAt(v, d, grown, BlocksOf(d), b);
        if short.Some? {
          var c: nat :| c < b && IsShort(v, d, short.value, c);
          PassedAt(v, d, grown, BlocksOf(d), c);
          EndTokenIncreases(c, b, d.blockTokens);
          assert grown == short;
          OtherOffset(v, d, short.value, c, k, b);
        }
        assert false;
      }
    }
  }

  lemma FareEnds(v: View, w: View, d: Demand, short: Option<nat>)
    requires Faring(v, w, d, short, BlocksOf(d))
    ensures CanMeet(v, d)
  {
    OpenFaring(v, w, d, short, BlocksOf(d));
    RoomForFewer(w, 0, 0);
  }

  lemma FareRunsOut(v: View, w: View, d: Demand, short: Option<nat>, b: nat)
    requires Faring(v, w, d, short, b) && !Room(w, Unheld(v, d.sequence, d.blockTokens, b, BlocksOf(d)))
    ensures !CanMeet(v, d)
  {
    OpenFaring(v, w, d, short, b);
  }

  // ---- Doing it again ------------------------------------------------------

  lemma {:induction false} NothingUnheld(v: View, d: Demand, b: nat)
    requires ReadyUpTo(v, d.sequence, d.blockTokens, d.tokens, BlocksOf(d)) && b <= BlocksOf(d)
    ensures Unheld(v, d.sequence, d.blockTokens, b, BlocksOf(d)) == 0
    decreases BlocksOf(d) - b
  {
    if b < BlocksOf(d) {
      NothingUnheld(v, d, b + 1);
      ReadyAt(v, d.sequence, d.blockTokens, d.tokens, BlocksOf(d), b);
      var k: nat :| At(v, k, d.sequence, EndToken(b, d.blockTokens));
      assert HoldsAt(v, d.sequence, EndToken(b, d.blockTokens));
    }
  }

  lemma ReadyPassesIffWithin(v: View, d: Demand, short: Option<nat>, b: nat)
    requires Coherent(v) && Ready(v, d.sequence, d.blockTokens, d.tokens, b)
    ensures PassesAt(v, d, short, b) <==> Within(v, d.sequence, d.blockTokens, d.limit, b)
  {
    var k: nat :|
      At(v, k, d.sequence, EndToken(b, d.blockTokens)) && Settled(v, k, d.blockTokens)
      && v.bindings[k].tokens >= Needed(d.tokens, d.blockTokens, b);
    FoundIsWithin(v, d.sequence, d.blockTokens, d.limit, b, k);
    OpenCoherent(v);
    forall l: nat | At(v, l, d.sequence, EndToken(b, d.blockTokens)) ensures l == k {
    }
  }

  lemma {:induction false} ReadyPassesUpTo(v: View, d: Demand, short: Option<nat>, n: nat)
    requires Coherent(v) && ReadyUpTo(v, d.sequence, d.blockTokens, d.tokens, n)
    ensures PassesUpTo(v, d, short, n) <==> WithinUpTo(v, d.sequence, d.blockTokens, d.limit, n)
  {
    if n > 0 {
      ReadyPassesUpTo(v, d, short, n - 1);
      ReadyPassesIffWithin(v, d, short, n - 1);
    }
  }

  /** When every block is ready, the demand can be met exactly when all of them are within the limit. */
  lemma ReadyIsMetIffWithin(v: View, d: Demand)
    requires Coherent(v) && ReadyUpTo(v, d.sequence, d.blockTokens, d.tokens, BlocksOf(d))
    ensures CanMeet(v, d) <==> WithinUpTo(v, d.sequence, d.blockTokens, d.limit, BlocksOf(d))
  {
    NothingUnheld(v, d, 0);
    RoomForFewer(v, 0, 0);
    forall short: Option<nat>
      ensures PassesUpTo(v, d, short, BlocksOf(d)) <==> WithinUpTo(v, d.sequence, d.blockTokens, d.limit, BlocksOf(d))
    {
      ReadyPassesUpTo(v, d, short, BlocksOf(d));
    }
    assert PassesUpTo(v, d, None, BlocksOf(d)) <==> WithinUpTo(v, d.sequence, d.blockTokens, d.limit, BlocksOf(d));
  }
}
