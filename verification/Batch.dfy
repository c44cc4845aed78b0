/**
 * Encoding a batch of texts over several workers, each with a workspace of its own.
 * Workers are modelled one after another: they share nothing they change.
 */
module Batch {
  import opened Arithmetic
  import opened Results
  import opened ByteText
  import opened PieceEncoding
  import opened Encodings
  import opened PieceCache
  import opened Bpe
  import opened Tokenizer

  const MAX_WORKERS := 16

  // ---- One text ------------------------------------------------------------

  /** The buffer of `capacity` tokens that encoding a text alone fills. */
  function TextEncoding(t: Model, f: Flags, text: seq<Byte>, capacity: nat): Encoding
    requires TextEnds(t, f, text)
  {
    Deliver(Empty(capacity), TextOutput(t, f, text))
  }

  /** Encoding a text alone into `capacity` tokens ends and succeeds. */
  ghost predicate TextOk(t: Model, f: Flags, text: seq<Byte>, capacity: nat) {
    TextEnds(t, f, text) && f.known && 4 * |text| + 20 <= 0xFFFF_FFFF
    && Status(TextOutput(t, f, text), TextEncoding(t, f, text, capacity)).Ok?
  }

  /** Encode one text with a workspace of its own. */
  method EncodeText(t: Model, f: Flags, text: seq<Byte>, capacity: nat) returns (r: Result<Encoding, Error>)
    requires TextEnds(t, f, text)
    ensures r.Ok? <==> TextOk(t, f, text, capacity)
    ensures r.Ok? ==> r.value == TextEncoding(t, f, text, capacity)
  {
    var w := Workspace.New(|text| + 1);
    if w.Err? {
      return Err(w.error);
    }
    EmptyIsSound(t.merges, t.byteTokens, w.value.cache);
    var status, e := EncodeWithWorkspace(t, f, w.value, text, Empty(capacity));
    return match status case Ok(_) => Ok(e) case Err(x) => Err(x);
  }

  /** Every text alone would be encoded. */
  ghost predicate AllOk(t: Model, f: Flags, texts: seq<seq<Byte>>, stride: nat) {
    forall i :: 0 <= i < |texts| ==> TextOk(t, f, texts[i], stride)
  }

  /** Each text has its own encoding. */
  ghost predicate AllEncoded(t: Model, f: Flags, texts: seq<seq<Byte>>, stride: nat, encodings: seq<Encoding>) {
    && |encodings| == |texts|
    && forall i :: 0 <= i < |texts| ==> TextEnds(t, f, texts[i]) && encodings[i] == TextEncoding(t, f, texts[i], stride)
  }

  /** Encoding ends on every text that is reached: the first, and any after texts that were encoded. */
  ghost predicate EndsWhereReached(t: Model, f: Flags, texts: seq<seq<Byte>>, stride: nat) {
    forall i :: 0 <= i < |texts| && AllOk(t, f, texts[..i], stride) ==> TextEnds(t, f, texts[i])
  }

  // ---- One worker ----------------------------------------------------------

  /** Room for the longest of the texts, and one symbol more. */
  method LongestText(texts: seq<seq<Byte>>) returns (n: nat)
    ensures n > 0 && forall i :: 0 <= i < |texts| ==> |texts[i]| < n
    ensures n == 1 || exists i :: 0 <= i < |texts| && |texts[i]| + 1 == n
  {
    n := 1;
    for i := 0 to |texts|
      invariant n > 0 && forall k :: 0 <= k < i ==> |texts[k]| < n
      invariant n == 1 || exists k :: 0 <= k < i && |texts[k]| + 1 == n
    {
      if |texts[i]| + 1 > n {
        n := |texts[i]| + 1;
      }
    }
  }

  /** Encode texts in turn with one workspace, stopping at the first that fails. */
  method BatchWorker(t: Model, f: Flags, texts: seq<seq<Byte>>, stride: nat)
    returns (encodings: seq<Encoding>, r: Result<(), Error>)
    requires EndsWhereReached(t, f, texts, stride)
    ensures r.Ok? <==> AllOk(t, f, texts, stride)
    ensures r.Ok? ==> AllEncoded(t, f, texts, stride, encodings)
  {
    encodings := [];
    var longest := LongestText(texts);
    var w := Workspace.New(longest);
    if w.Err? {
      return [], Err(w.error);
    }
    EmptyIsSound(t.merges, t.byteTokens, w.value.cache);
    for i := 0 to |texts|
      invariant w.value.Valid(t.merges, t.byteTokens) && fresh(w.value) && w.value.maximum >= longest
      invariant |encodings| == i
      invariant forall k :: 0 <= k < i ==>
        TextOk(t, f, texts[k], stride) && encodings[k] == TextEncoding(t, f, texts[k], stride)
    {
      assert AllOk(t, f, texts[..i], stride);
      var status, e := EncodeWithWorkspace(t, f, w.value, texts[i], Empty(stride));
      encodings := encodings + [e];
      if status.Err? {
        return encodings, status;
      }
    }
    return encodings, Ok(());
  }

  // ---- Splitting the batch -------------------------------------------------

  /** How many texts worker `w` takes: the leading `remainder` workers take one more than the others. */
  function Share(base: nat, remainder: nat, w: nat): nat {
    base + if w < remainder then 1 else 0
  }

  /** Where worker `w` starts. */
  function FirstText(base: nat, remainder: nat, w: nat): nat {
    if w == 0 then 0 else FirstText(base, remainder, w - 1) + Share(base, remainder, w - 1)
  }

  lemma {:induction false} FirstTextIs(base: nat, remainder: nat, w: nat)
    ensures FirstText(base, remainder, w) == base * w + if w < remainder then w else remainder
  {
    if w > 0 {
      FirstTextIs(base, remainder, w - 1);
      assert base * w == base * (w - 1) + base;
    }
  }

  /** The shares add up to all the texts. */
  lemma SharesCover(n: nat, workers: nat)
    requires 0 < workers
    ensures FirstText(n / workers, n % workers, workers) == n
  {
    FirstTextIs(n / workers, n % workers, workers);
    assert n == workers * (n / workers) + n % workers;
  }

  lemma {:induction false} FirstTextIncreases(base: nat, remainder: nat, a: nat, b: nat)
    requires a <= b
    ensures FirstText(base, remainder, a) <= FirstText(base, remainder, b)
  {
    if a < b {
      FirstTextIncreases(base, remainder, a, b - 1);
    }
  }

  /** Worker `w` ends on every text it reaches. */
  ghost predicate WorkerEnds(t: Model, f: Flags, texts: seq<seq<Byte>>, stride: nat, base: nat, remainder: nat, w: nat)
  {
    var first := FirstText(base, remainder, w);
    first + Share(base, remainder, w) <= |texts| ==>
      EndsWhereReached(t, f, texts[first..first + Share(base, remainder, w)], stride)
  }

  ghost predicate WorkersEnd(t: Model, f: Flags, texts: seq<seq<Byte>>, stride: nat, workers: nat)
    requires workers > 0
  {
    forall w :: 0 <= w < workers ==> WorkerEnds(t, f, texts, stride, |texts| / workers, |texts| % workers, w)
  }

  lemma SliceOk(t: Model, f: Flags, texts: seq<seq<Byte>>, stride: nat, a: nat, b: nat)
    requires a <= b <= |texts|
    ensures AllOk(t, f, texts[..b], stride) <==> AllOk(t, f, texts[..a], stride) && AllOk(t, f, texts[a..b], stride)
  {
    assert forall i :: 0 <= i < a ==> texts[..a][i] == texts[..b][i];
    assert forall i :: 0 <= i < b - a ==> texts[a..b][i] == texts[..b][a + i];
    if AllOk(t, f, texts[..a], stride) && AllOk(t, f, texts[a..b], stride) {
      forall i | 0 <= i < b ensures TextOk(t, f, texts[..b][i], stride) {
        assert i >= a ==> texts[a..b][i - a] == texts[..b][i];
      }
    }
  }

  lemma SliceEncoded(t: Model, f: Flags, texts: seq<seq<Byte>>, stride: nat, a: nat, b: nat, x: seq<Encoding>,
                     y: seq<Encoding>)
    requires a <= b <= |texts|
    requires AllEncoded(t, f, texts[..a], stride, x) && AllEncoded(t, f, texts[a..b], stride, y)
    ensures AllEncoded(t, f, texts[..b], stride, x + y)
  {
    forall i | 0 <= i < b
      ensures TextEnds(t, f, texts[..b][i]) && (x + y)[i] == TextEncoding(t, f, texts[..b][i], stride)
    {
      assert texts[..b][i] == if i < a then texts[..a][i] else texts[a..b][i - a];
    }
  }

  method RunShares(t: Model, f: Flags, texts: seq<seq<Byte>>, stride: nat, workers: nat, base: nat, remainder: nat)
    returns (encodings: seq<Encoding>, r: Result<(), Error>)
    requires FirstText(base, remainder, workers) == |texts|
    requires forall w :: 0 <= w < workers ==> WorkerEnds(t, f, texts, stride, base, remainder, w)
    ensures r.Ok? <==> AllOk(t, f, texts, stride)
    ensures r.Ok? ==> AllEncoded(t, f, texts, stride, encodings)
  {
    encodings, r := [], Ok(());
    var next := 0;
    for w := 0 to workers
      invariant 0 <= next <= |texts| && next == FirstText(base, remainder, w)
      invariant r.Ok? <==> AllOk(t, f, texts[..next], stride)
      invariant r.Ok? ==> AllEncoded(t, f, texts[..next], stride, encodings)
    {
      var end := next + Share(base, remainder, w);
      FirstTextIncreases(base, remainder, w + 1, workers);
      assert WorkerEnds(t, f, texts, stride, base, remainder, w);
      var produced, status := BatchWorker(t, f, texts[next..end], stride);
      SliceOk(t, f, texts, stride, next, end);
      if r.Ok? && status.Ok? {
        SliceEncoded(t, f, texts, stride, next, end, encodings, produced);
      }
      if r.Ok? {
        encodings, r := encodings + produced, status;
      }
      next := end;
    }
    assert texts[..|texts|] == texts;
  }

  /** Run the workers over consecutive slices; succeed exactly when every text does. */
  method RunWorkers(t: Model, f: Flags, texts: seq<seq<Byte>>, stride: nat, workers: nat)
    returns (encodings: seq<Encoding>, r: Result<(), Error>)
    requires 0 < workers <= |texts| && WorkersEnd(t, f, texts, stride, workers)
    ensures r.Ok? <==> AllOk(t, f, texts, stride)
    ensures r.Ok? ==> AllEncoded(t, f, texts, stride, encodings)
  {
    var base, remainder := |texts| / workers, |texts| % workers;
    SharesCover(|texts|, workers);
    encodings, r := RunShares(t, f, texts, stride, workers, base, remainder);
  }

  // ---- Laying out the results ----------------------------------------------

  /** One row of `stride` tokens for each text, of which `counts[i]` are valid. */
  datatype BatchEncoding = BatchEncoding(
    stride: nat,
    tokens: seq<nat>,
    counts: seq<nat>,
    overflows: seq<nat>,
    invalids: seq<nat>)

  /** Row `i` holds encoding `e`. */
  ghost predicate RowHolds(tokens: seq<nat>, stride: nat, i: nat, e: Encoding) {
    i * stride + |e.tokens| <= |tokens| && tokens[i * stride..i * stride + |e.tokens|] == e.tokens
  }

  lemma RowFits(n: nat, stride: nat, i: nat, count: nat)
    requires i < n && count <= stride
    ensures i * stride + count <= n * stride
  {
    assert (i + 1) * stride <= n * stride;
  }

  /** Writing row `i` leaves the rows before it. */
  lemma RowWritten(tokens: seq<nat>, stride: nat, n: nat, i: nat, e: Encoding, k: nat, earlier: Encoding)
    requires |tokens| == n * stride && k < i < n && |e.tokens| <= stride && |earlier.tokens| <= stride
    requires RowHolds(tokens, stride, k, earlier) && i * stride + |e.tokens| <= |tokens|
    ensures RowHolds(tokens[..i * stride] + e.tokens + tokens[i * stride + |e.tokens|..], stride, k, earlier)
  {
    RowFits(i, stride, k, |earlier.tokens|);
    var after := tokens[..i * stride] + e.tokens + tokens[i * stride + |e.tokens|..];
    var lo := k * stride;
    assert after[lo..lo + |earlier.tokens|] == tokens[lo..lo + |earlier.tokens|];
  }

  /** Copy the encodings into rows. */
  method LayOut(encodings: seq<Encoding>, stride: nat) returns (tokens: seq<nat>)
    requires forall i :: 0 <= i < |encodings| ==> |encodings[i].tokens| <= stride
    ensures |tokens| == |encodings| * stride
    ensures forall i :: 0 <= i < |encodings| ==> RowHolds(tokens, stride, i, encodings[i])
  {
    var n := |encodings|;
    tokens := seq(n * stride, _ => 0);
    for i := 0 to n
      invariant |tokens| == n * stride
      invariant forall k :: 0 <= k < i ==> RowHolds(tokens, stride, k, encodings[k])
    {
      var e, at := encodings[i], i * stride;
      RowFits(n, stride, i, |e.tokens|);
      forall k | 0 <= k < i
        ensures RowHolds(tokens[..at] + e.tokens + tokens[at + |e.tokens|..], stride, k, encodings[k])
      {
        RowWritten(tokens, stride, n, i, e, k, encodings[k]);
      }
      tokens := tokens[..at] + e.tokens + tokens[at + |e.tokens|..];
      assert tokens[at..at + |e.tokens|] == e.tokens;
    }
  }

  /** As many workers as asked for, or the default, but no more than there are texts. */
  function WorkerCount(texts: nat, asked: nat): (n: nat)
    requires texts > 0
    ensures 0 < n <= texts
  {
    Min(if asked == 0 then MAX_WORKERS else asked, texts)
  }

  /**
   * Encode a batch. For every worker count it succeeds exactly when each text alone would, and then row `i` is the
   * encoding of text `i` alone.
   */
  method EncodeBatch(t: Model, f: Flags, texts: seq<seq<Byte>>, stride: nat, workerCount: nat)
    returns (r: Result<BatchEncoding, Error>)
    requires texts != [] && stride > 0 ==> WorkersEnd(t, f, texts, stride, WorkerCount(|texts|, workerCount))
    ensures texts == [] ==> r == Ok(BatchEncoding(0, [], [], [], []))
    ensures texts != [] && stride == 0 ==> r == Err(InvalidArgument)
    ensures texts != [] && stride > 0 ==> (r.Ok? <==> AllOk(t, f, texts, stride))
    ensures r.Ok? ==> |r.value.counts| == |r.value.overflows| == |r.value.invalids| == |texts|
    ensures r.Ok? ==> forall i :: 0 <= i < |texts| ==>
      TextEnds(t, f, texts[i]) &&
      var e := TextEncoding(t, f, texts[i], stride);
      && RowHolds(r.value.tokens, stride, i, e) && r.value.counts[i] == |e.tokens|
      && r.value.overflows[i] == e.overflow && r.value.invalids[i] == e.invalid
  {
    if texts == [] {
      return Ok(BatchEncoding(0, [], [], [], []));
    }
    if stride == 0 {
      return Err(InvalidArgument);
    }
    var encodings, status := RunWorkers(t, f, texts, stride, WorkerCount(|texts|, workerCount));
    if status.Err? {
      return Err(status.error);
    }
    var tokens := LayOut(encodings, stride);
    var n := |encodings|;
    return Ok(BatchEncoding(stride, tokens,
      seq(n, i requires 0 <= i < n => |encodings[i].tokens|),
      seq(n, i requires 0 <= i < n => encodings[i].overflow),
      seq(n, i requires 0 <= i < n => encodings[i].invalid)));
  }
}
