/** Decoding token ids back to bytes, and that it undoes encoding. */
module Decoder {
  import opened Results
  import opened ByteText
  import opened NaiveBpe
  import opened PieceEncoding
  import opened Bpe
  import opened Tokenizer

  // ---- What ids decode to --------------------------------------------------

  predicate IsSpecialId(t: Model, id: nat) {
    exists s :: s in t.specials && s.id == id
  }

  /** The bytes of one token. */
  function Spelling(t: Model, id: nat): Result<seq<Byte>, Error> {
    if id > t.maximumId || id !in t.texts then Err(InvalidArgument)
    else if DecodeText(t.texts[id]).None? then Err(FormatError)
    else Ok(DecodeText(t.texts[id]).value)
  }

  /** The bytes of a list of tokens, special ones skipped if asked. */
  function Decode(t: Model, ids: seq<nat>, skip: bool): Result<seq<Byte>, Error> {
    if ids == [] then Ok([])
    else if skip && IsSpecialId(t, ids[0]) then Decode(t, ids[1..], skip)
    else
      var first, rest := Spelling(t, ids[0]), Decode(t, ids[1..], skip);
      if first.Err? then first else if rest.Err? then rest else Ok(first.value + rest.value)
  }

  // ---- Decoding into a buffer ----------------------------------------------

  method TokenIdIsSpecial(t: Model, id: nat) returns (special: bool)
    ensures special == IsSpecialId(t, id)
  {
    for i := 0 to |t.specials|
      invariant forall k :: 0 <= k < i ==> t.specials[k].id != id
    {
      if t.specials[i].id == id {
        return true;
      }
    }
    return false;
  }

  /** The first `position` bytes of a token's text have been read as `done`. Sealed behind a recursion. */
  ghost function DecodingSeal(token: seq<Byte>, position: nat, done: seq<Byte>, n: nat): nat
    requires position <= |token|
  {
    if n > 0 then DecodingSeal(token, position, done, n - 1)
    else
      var rest := DecodeText(token[position..]);
      if DecodeText(token) == (if rest.None? then None else Some(done + rest.value)) then 1 else 0
  }

  ghost predicate Decoding(token: seq<Byte>, position: nat, done: seq<Byte>) {
    position <= |token| && DecodingSeal(token, position, done, position + 2) == 1
  }

  lemma {:induction false} UnsealDecoding(token: seq<Byte>, position: nat, done: seq<Byte>, n: nat)
    requires position <= |token|
    ensures DecodingSeal(token, position, done, n) == 1 <==>
      DecodeText(token)
      == if DecodeText(token[position..]).None? then None else Some(done + DecodeText(token[position..]).value)
  {
    if n > 0 {
      UnsealDecoding(token, position, done, n - 1);
    }
  }

  lemma DecodingStart(token: seq<Byte>)
    ensures Decoding(token, 0, [])
  {
    var none: seq<Byte> := [];
    assert token[0..] == token;
    assert DecodeText(token).Some? ==> none + DecodeText(token).value == DecodeText(token).value;
    UnsealDecoding(token, 0, none, 2);
  }

  lemma DecodingStep(token: seq<Byte>, position: nat, done: seq<Byte>)
    requires Decoding(token, position, done) && position < |token|
    ensures var read := ReadCodePoint(token[position..]);
      if read.None? || CodePointToByte(read.value.0).None? then DecodeText(token).None?
      else
        && Decoding(token, position + read.value.1, done + [CodePointToByte(read.value.0).value])
        && (DecodeText(token).Some? ==> |done| < |DecodeText(token).value|)
  {
    var rest := token[position..];
    var read := ReadCodePoint(rest);
    UnsealDecoding(token, position, done, position + 2);
    if read.Some? && CodePointToByte(read.value.0).Some? {
      var b, after := CodePointToByte(read.value.0).value, position + read.value.1;
      assert rest[read.value.1..] == token[after..];
      var tail := DecodeText(token[after..]);
      assert tail.Some? ==> done + ([b] + tail.value) == done + [b] + tail.value;
      UnsealDecoding(token, after, done + [b], after + 2);
    }
  }

  lemma DecodingEnd(token: seq<Byte>, done: seq<Byte>)
    requires Decoding(token, |token|, done)
    ensures DecodeText(token) == Some(done)
  {
    UnsealDecoding(token, |token|, done, |token| + 2);
    var none: seq<Byte> := [];
    assert token[|token|..] == none && DecodeText(none) == Some(none) && done + none == done;
  }

  /** Append one token's bytes while they fit, a byte being kept free for a terminator. */
  method DecodeOneToken(t: Model, id: nat, text: seq<Byte>, capacity: nat) returns (r: Result<seq<Byte>, Error>)
    requires id <= t.maximumId && |text| < capacity
    ensures r.Ok? <==> Spelling(t, id).Ok? && |text| + |Spelling(t, id).value| < capacity
    ensures r.Ok? ==> r.value == text + Spelling(t, id).value
  {
    if id !in t.texts {
      return Err(InvalidArgument);
    }
    var token, position, out := t.texts[id], 0, text;
    ghost var done: seq<Byte> := [];
    assert text + done == text;
    DecodingStart(token);
    while position < |token|
      invariant out == text + done && |out| < capacity && Decoding(token, position, done)
      decreases |token| - position
    {
      DecodingStep(token, position, done);
      var read := ReadCodePoint(token[position..]);
      if read.None? {
        return Err(FormatError);
      }
      var b := CodePointToByte(read.value.0);
      if b.None? {
        return Err(FormatError);
      }
      if |out| + 1 >= capacity {
        return Err(CapacityExceeded);
      }
      out := out + [b.value];
      done := done + [b.value];
      position := position + read.value.1;
    }
    DecodingEnd(token, done);
    return Ok(out);
  }

  /** `text` followed by a decoded rest, if there is one. */
  ghost function Prefixed(text: seq<Byte>, rest: Result<seq<Byte>, Error>): Result<seq<Byte>, Error> {
    if rest.Err? then rest else Ok(text + rest.value)
  }

  lemma EmptyPrefix(rest: Result<seq<Byte>, Error>)
    ensures Prefixed([], rest) == rest
  {
    var none: seq<Byte> := [];
    assert rest.Ok? ==> none + rest.value == rest.value;
  }

  lemma PrefixedOneMore(text: seq<Byte>, first: Result<seq<Byte>, Error>, rest: Result<seq<Byte>, Error>)
    ensures first.Ok? && rest.Ok? ==> Prefixed(text, Ok(first.value + rest.value)) == Prefixed(text + first.value, rest)
    ensures first.Ok? && rest.Ok? ==> |text| + |first.value| <= |text + first.value + rest.value|
  {
    if first.Ok? && rest.Ok? {
      assert text + (first.value + rest.value) == text + first.value + rest.value;
    }
  }

  /** Decode a list of ids: everything, when it fits, and an error otherwise. */
  method DecodeWithCapacity(t: Model, ids: seq<nat>, known: bool, skip: bool, capacity: nat)
    returns (r: Result<seq<Byte>, Error>)
    ensures !known || capacity == 0 ==> r == Err(InvalidArgument)
    ensures known && capacity > 0 ==>
      (r.Ok? <==> Decode(t, ids, skip).Ok? && |Decode(t, ids, skip).value| < capacity)
    ensures r.Ok? ==> r == Decode(t, ids, skip)
  {
    if !known || capacity == 0 {
      return Err(InvalidArgument);
    }
    var text: seq<Byte> := [];
    assert ids[0..] == ids;
    EmptyPrefix(Decode(t, ids, skip));
    for i := 0 to |ids|
      invariant |text| < capacity && Decode(t, ids, skip) == Prefixed(text, Decode(t, ids[i..], skip))
    {
      assert ids[i..][0] == ids[i] && ids[i..][1..] == ids[i + 1..];
      var special := false;
      if skip {
        special := TokenIdIsSpecial(t, ids[i]);
      }
      if !special {
        if ids[i] > t.maximumId {
          return Err(InvalidArgument);
        }
        ghost var before := text;
        r := DecodeOneToken(t, ids[i], text, capacity);
        PrefixedOneMore(before, Spelling(t, ids[i]), Decode(t, ids[i + 1..], skip));
        if r.Err? {
          return;
        }
        text := r.value;
      }
    }
    assert ids[|ids|..] == [];
    var none: seq<Byte> := [];
    assert text + none == text;
    return Ok(text);
  }

  // ---- Decoding undoes encoding --------------------------------------------

  ghost predicate ByteIsSpelled(t: Model, b: Byte) {
    var id := t.byteTokens[b];
    id != NO_TOKEN && id in t.texts && t.texts[id] == ByteSymbol(b)
  }

  ghost predicate MergeIsSpelled(t: Model, pair: (nat, nat)) {
    pair in t.merges && pair.0 in t.texts && pair.1 in t.texts && t.merges[pair].1 in t.texts
    && t.texts[t.merges[pair].1] == t.texts[pair.0] + t.texts[pair.1]
  }

  /** Every byte has a token whose text is its symbol, and every merge joins the texts of its pair. */
  ghost predicate Invertible(t: Model) {
    && (forall b: Byte :: ByteIsSpelled(t, b))
    && (forall pair :: pair in t.merges ==> MergeIsSpelled(t, pair))
    && (forall id :: id in t.texts ==> id <= t.maximumId)
  }

  lemma DecodeCons(t: Model, id: nat, ids: seq<nat>)
    requires Spelling(t, id).Ok? && Decode(t, ids, false).Ok?
    ensures Decode(t, [id] + ids, false) == Ok(Spelling(t, id).value + Decode(t, ids, false).value)
  {
    assert ([id] + ids)[0] == id && ([id] + ids)[1..] == ids;
  }

  lemma PrefixesJoin(x: seq<Byte>, y: seq<Byte>, z: seq<Byte>)
    ensures (x + y) + z == x + (y + z)
  {
  }

  /** Decoding without skipping follows concatenation. */
  lemma {:induction false} DecodeJoins(t: Model, a: seq<nat>, b: seq<nat>)
    requires Decode(t, a, false).Ok? && Decode(t, b, false).Ok?
    ensures Decode(t, a + b, false) == Ok(Decode(t, a, false).value + Decode(t, b, false).value)
  {
    if a == [] {
      assert a + b == b;
      EmptyPrefix(Decode(t, b, false));
    } else {
      var id, rest := a[0], a[1..];
      DecodeJoins(t, rest, b);
      DecodeCons(t, id, rest);
      DecodeCons(t, id, rest + b);
      assert a == [id] + rest && a + b == [id] + (rest + b);
      PrefixesJoin(Spelling(t, id).value, Decode(t, rest, false).value, Decode(t, b, false).value);
    }
  }

  lemma {:induction false} DecodeSplits(t: Model, a: seq<nat>, b: seq<nat>)
    requires Decode(t, a + b, false).Ok?
    ensures Decode(t, a, false).Ok? && Decode(t, b, false).Ok?
  {
    if a == [] {
      assert a + b == b;
    } else {
      assert (a + b)[0] == a[0] && (a + b)[1..] == a[1..] + b;
      DecodeSplits(t, a[1..], b);
    }
  }

  lemma DecodeOne(t: Model, id: nat)
    requires Spelling(t, id).Ok?
    ensures Decode(t, [id], false) == Spelling(t, id)
  {
    var none: seq<nat> := [];
    assert [id][1..] == none;
    assert Decode(t, none, false) == Ok([]);
    assert Spelling(t, id).value + [] == Spelling(t, id).value;
  }

  lemma PairKeepsBytes(t: Model, l: nat, r: nat, c: nat)
    requires Decode(t, [l], false).Ok? && Decode(t, [r], false).Ok? && c <= t.maximumId
    requires l in t.texts && r in t.texts && c in t.texts && t.texts[c] == t.texts[l] + t.texts[r]
    ensures Decode(t, [c], false) == Decode(t, [l] + [r], false)
  {
    assert Spelling(t, l).Ok? && Spelling(t, r).Ok? by {
      assert [l][0] == l && [r][0] == r;
    }
    DecodeOne(t, l);
    DecodeOne(t, r);
    DecodeTextJoins(t.texts[l], t.texts[r]);
    DecodeOne(t, c);
    DecodeJoins(t, [l], [r]);
  }

  /** A merge keeps the bytes. */
  lemma MergeKeepsBytes(t: Model, s: seq<nat>, i: nat)
    requires Invertible(t) && CanMerge(t.merges, s, i) && Decode(t, s, false).Ok?
    ensures Decode(t, MergeAt(s, i, t.merges[(s[i], s[i + 1])].1), false) == Decode(t, s, false)
  {
    var l, r := s[i], s[i + 1];
    var c := t.merges[(l, r)].1;
    var head, pair, tail := s[..i], [l] + [r], s[i + 2..];
    assert s == head + (pair + tail);
    DecodeSplits(t, head, pair + tail);
    DecodeSplits(t, pair, tail);
    DecodeSplits(t, [l], [r]);
    assert MergeIsSpelled(t, (l, r));
    PairKeepsBytes(t, l, r, c);
    DecodeJoins(t, [c], tail);
    DecodeJoins(t, pair, tail);
    DecodeJoins(t, head, pair + tail);
    DecodeJoins(t, head, [c] + tail);
    assert MergeAt(s, i, c) == head + ([c] + tail);
  }

  /** Merging to the end keeps the bytes. */
  lemma {:induction false} EncodeKeepsBytes(t: Model, s: seq<nat>)
    requires Invertible(t) && Decode(t, s, false).Ok?
    ensures Decode(t, Encode(t.merges, s), false) == Decode(t, s, false)
    decreases |s|
  {
    var best := BestUpTo(t.merges, s, |s|);
    if best.Some? {
      MergeKeepsBytes(t, s, best.value);
      EncodeKeepsBytes(t, MergeAt(s, best.value, t.merges[(s[best.value], s[best.value + 1])].1));
    }
  }

  lemma {:induction false} BytesDecode(t: Model, text: seq<Byte>)
    requires Invertible(t)
    ensures AllMapped(t.byteTokens, text) && Decode(t, Initial(t.byteTokens, text), false) == Ok(text)
  {
    forall i | 0 <= i < |text| ensures t.byteTokens[text[i]] != NO_TOKEN {
      assert ByteIsSpelled(t, text[i]);
    }
    if text == [] {
      assert Initial(t.byteTokens, text) == [];
    } else {
      var ids := Initial(t.byteTokens, text);
      BytesDecode(t, text[1..]);
      assert ids[1..] == Initial(t.byteTokens, text[1..]);
      assert ByteIsSpelled(t, text[0]);
      SymbolIsDecoded(text[0]);
      assert text == [text[0]] + text[1..];
    }
  }

  /** One piece encodes to tokens that decode to it. */
  lemma PieceRoundTrip(t: Model, text: seq<Byte>)
    requires Invertible(t)
    ensures var out := PieceOutput(t.merges, t.byteTokens, text);
      out.error.None? && Decode(t, out.tokens, false) == Ok(text)
  {
    BytesDecode(t, text);
    EncodeKeepsBytes(t, Initial(t.byteTokens, text));
  }

  lemma {:induction false} PiecesRoundTrip(t: Model, pieces: seq<seq<Byte>>)
    requires Invertible(t)
    ensures var out := PiecesOutput(t, pieces);
      out.error.None? && Decode(t, out.tokens, false) == Ok(P.Joined(pieces))
  {
    if pieces != [] {
      PieceRoundTrip(t, pieces[0]);
      PiecesRoundTrip(t, pieces[1..]);
      DecodeJoins(t, PieceOutput(t.merges, t.byteTokens, pieces[0]).tokens, PiecesOutput(t, pieces[1..]).tokens);
    }
  }

  lemma SegmentRoundTrip(t: Model, f: Flags, text: seq<Byte>)
    requires Invertible(t)
    ensures var out := SegmentOutput(t, f, text);
      out.error.None? && Decode(t, out.tokens, false) == Ok(text)
  {
    if text == [] {
    } else if !t.useRegex || f.disableRegex {
      PieceRoundTrip(t, text);
    } else {
      PiecesRoundTrip(t, P.Pieces(text, 0));
      P.PiecesPartition(text, 0);
      assert text[0..] == text;
    }
  }

  lemma {:induction false} WholeTextIsOneSegment(t: Model, f: Flags, text: seq<Byte>, position: nat)
    requires f.disableSpecials && position <= |text|
    ensures RestOutput(t, f, text, 0, position) == SegmentOutput(t, f, text)
    decreases |text| - position
  {
    if position < |text| {
      WholeTextIsOneSegment(t, f, text, position + 1);
    } else {
      assert text[0..] == text;
    }
  }

  lemma {:induction false} PiecesValid(t: Model, pieces: seq<seq<Byte>>)
    requires PiecesOutput(t, pieces).error.None?
    ensures PiecesOutput(t, pieces).invalid == 0
  {
    if pieces != [] {
      PiecesValid(t, pieces[1..]);
    }
  }

  lemma NoErrorNoInvalid(t: Model, f: Flags, text: seq<Byte>)
    requires SegmentOutput(t, f, text).error.None?
    ensures SegmentOutput(t, f, text).invalid == 0
  {
    if text != [] && t.useRegex && !f.disableRegex {
      PiecesValid(t, P.Pieces(text, 0));
    }
  }

  /**
   * Round trip: with every byte symbol present, no special-token matching and no prefix space, encoding any byte
   * string succeeds and decoding the tokens gives it back.
   */
  lemma RoundTrip(t: Model, f: Flags, text: seq<Byte>)
    requires Invertible(t) && f.disableSpecials && !f.addPrefixSpace && !t.addPrefixSpace
    ensures var out := TextOutput(t, f, text);
      out.error.None? && out.invalid == 0 && Decode(t, out.tokens, false) == Ok(text)
  {
    WholeTextIsOneSegment(t, f, text, 0);
    SegmentRoundTrip(t, f, text);
    NoErrorNoInvalid(t, f, text);
    assert [] + SegmentOutput(t, f, text).tokens == SegmentOutput(t, f, text).tokens;
  }
}
