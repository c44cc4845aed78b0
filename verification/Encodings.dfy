/** Encode output: what has been emitted, and the caller's buffer that keeps the first tokens and counts the rest. */
module Encodings {
  import opened Results
  import opened PieceEncoding

  datatype Encoding = Encoding(tokens: seq<nat>, capacity: nat, overflow: nat, invalid: nat)

  predicate Fits(e: Encoding) { |e.tokens| <= e.capacity }

  function Empty(capacity: nat): (e: Encoding)
    ensures Fits(e)
  {
    Encoding([], capacity, 0, 0)
  }

  /** One more token: kept while there is room, counted otherwise. */
  function Append(e: Encoding, token: nat): Encoding {
    if |e.tokens| < e.capacity then e.(tokens := e.tokens + [token]) else e.(overflow := e.overflow + 1)
  }

  /** Many more tokens at once. */
  function Appended(e: Encoding, tokens: seq<nat>): (r: Encoding)
    requires Fits(e)
    ensures Fits(r) && r.capacity == e.capacity
  {
    var room := e.capacity - |e.tokens|;
    if |tokens| <= room then e.(tokens := e.tokens + tokens)
    else e.(tokens := e.tokens + tokens[..room], overflow := e.overflow + |tokens| - room)
  }

  lemma AppendedOneMore(e: Encoding, tokens: seq<nat>, token: nat)
    requires Fits(e)
    ensures Append(Appended(e, tokens), token) == Appended(e, tokens + [token])
  {
    var room := e.capacity - |e.tokens|;
    if |tokens| < room {
      assert e.tokens + tokens + [token] == e.tokens + (tokens + [token]);
    } else {
      assert (tokens + [token])[..room] == tokens[..room];
    }
  }

  lemma AppendedTwice(e: Encoding, a: seq<nat>, b: seq<nat>)
    requires Fits(e)
    ensures Appended(Appended(e, a), b) == Appended(e, a + b)
  {
    var room := e.capacity - |e.tokens|;
    if |a| + |b| <= room {
      assert e.tokens + a + b == e.tokens + (a + b);
    } else if |a| <= room {
      assert e.tokens + a + b[..room - |a|] == e.tokens + (a + b)[..room];
    } else {
      assert (a + b)[..room] == a[..room];
      assert e.tokens + a[..room] + b[..0] == e.tokens + a[..room];
    }
  }

  /** Append a list token by token. */
  method AppendAll(e: Encoding, tokens: seq<nat>) returns (r: Encoding)
    requires Fits(e)
    ensures r == Appended(e, tokens)
  {
    r := e;
    assert e == Appended(e, tokens[..0]) by {
      assert tokens[..0] == [] && e.tokens + [] == e.tokens;
    }
    for i := 0 to |tokens|
      invariant r == Appended(e, tokens[..i])
    {
      AppendedOneMore(e, tokens[..i], tokens[i]);
      assert tokens[..i + 1] == tokens[..i] + [tokens[i]];
      r := Append(r, tokens[i]);
    }
    assert tokens[..|tokens|] == tokens;
  }

  // ---- Output --------------------------------------------------------------

  /** Everything an encode emits, before any buffer limits it, and how it ends. */
  datatype Output = Output(tokens: seq<nat>, invalid: nat, error: Option<Error>)

  const NOTHING := Output([], 0, None)

  /** `b` after `a`; nothing follows an error. */
  function Then(a: Output, b: Output): Output {
    if a.error.Some? then a else Output(a.tokens + b.tokens, a.invalid + b.invalid, b.error)
  }

  function DeliverSeal(e: Encoding, out: Output, n: nat): (r: Encoding)
    requires Fits(e)
    ensures Fits(r) && r.capacity == e.capacity
  {
    if n > 0 then DeliverSeal(e, out, n - 1) else Appended(e, out.tokens).(invalid := e.invalid + out.invalid)
  }

  /** The caller's buffer once an output has been emitted into it. Sealed behind a recursion. */
  function Deliver(e: Encoding, out: Output): (r: Encoding)
    requires Fits(e)
    ensures Fits(r) && r.capacity == e.capacity
  {
    DeliverSeal(e, out, e.capacity + 2)
  }

  lemma {:induction false} UnsealDeliver(e: Encoding, out: Output, n: nat)
    requires Fits(e)
    ensures DeliverSeal(e, out, n) == Appended(e, out.tokens).(invalid := e.invalid + out.invalid)
  {
    if n > 0 {
      UnsealDeliver(e, out, n - 1);
    }
  }

  /** Its tokens go to the buffer, or are counted, and its invalid segments are counted. */
  lemma DeliverIs(e: Encoding, out: Output)
    requires Fits(e)
    ensures Deliver(e, out) == Appended(e, out.tokens).(invalid := e.invalid + out.invalid)
  {
    UnsealDeliver(e, out, e.capacity + 2);
  }

  lemma AppendedIgnoresInvalid(e: Encoding, invalid: nat, tokens: seq<nat>)
    requires Fits(e)
    ensures Appended(e.(invalid := invalid), tokens) == Appended(e, tokens).(invalid := invalid)
  {
  }

  lemma DeliverThen(e: Encoding, a: Output, b: Output)
    requires Fits(e) && a.error.None?
    ensures Deliver(Deliver(e, a), b) == Deliver(e, Then(a, b))
  {
    DeliverIs(e, a);
    DeliverIs(Deliver(e, a), b);
    DeliverIs(e, Then(a, b));
    AppendedTwice(e, a.tokens, b.tokens);
    AppendedIgnoresInvalid(Appended(e, a.tokens), e.invalid + a.invalid, b.tokens);
  }

  lemma DeliverNothing(e: Encoding)
    requires Fits(e)
    ensures Deliver(e, NOTHING) == e
  {
    DeliverIs(e, NOTHING);
    assert e.tokens + [] == e.tokens;
  }

  // ---- Emitting step by step -----------------------------------------------

  /** Emitting `rest` from `e` ends as emitting `all` from `start` would. Sealed behind a recursion. */
  ghost function PendingSeal(start: Encoding, e: Encoding, all: Output, rest: Output, n: nat): nat
    requires Fits(start) && Fits(e)
  {
    if n > 0 then PendingSeal(start, e, all, rest, n - 1)
    else if Deliver(start, all) == Deliver(e, rest) && all.error == rest.error then 1 else 0
  }

  ghost predicate Pending(start: Encoding, e: Encoding, all: Output, rest: Output) {
    Fits(start) && Fits(e) && PendingSeal(start, e, all, rest, e.capacity + 2) == 1
  }

  lemma {:induction false} UnsealPending(start: Encoding, e: Encoding, all: Output, rest: Output, n: nat)
    requires Fits(start) && Fits(e)
    ensures PendingSeal(start, e, all, rest, n) == 1
            <==> Deliver(start, all) == Deliver(e, rest) && all.error == rest.error
  {
    if n > 0 {
      UnsealPending(start, e, all, rest, n - 1);
    }
  }

  lemma PendingStart(e: Encoding, all: Output)
    requires Fits(e)
    ensures Pending(e, e, all, all)
  {
    UnsealPending(e, e, all, all, e.capacity + 2);
  }

  /** Emit the first part. */
  lemma PendingStep(start: Encoding, e: Encoding, all: Output, a: Output, b: Output)
    requires Pending(start, e, all, Then(a, b)) && a.error.None?
    ensures Pending(start, Deliver(e, a), all, b)
  {
    UnsealPending(start, e, all, Then(a, b), e.capacity + 2);
    DeliverThen(e, a, b);
    UnsealPending(start, Deliver(e, a), all, b, e.capacity + 2);
  }

  lemma PendingEnd(start: Encoding, e: Encoding, all: Output, rest: Output)
    requires Pending(start, e, all, rest)
    ensures Deliver(start, all) == Deliver(e, rest) && all.error == rest.error
  {
    UnsealPending(start, e, all, rest, e.capacity + 2);
  }
}
