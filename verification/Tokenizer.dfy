/** Encoding whole texts: special tokens and the pieces between them, through a workspace with its cache. */
module Tokenizer {
  import opened Results
  import opened ByteText
  import opened NaiveBpe
  import opened PieceEncoding
  import opened Encodings
  import opened PieceCache
  import opened Bpe
  import P = Pretokenizer

  datatype Special = Special(text: seq<Byte>, id: nat)

  /** A loaded tokenizer. `texts` is the text of each token id. */
  datatype Model = Model(
    merges: Merges,
    byteTokens: ByteTokens,
    texts: map<nat, seq<Byte>>,
    maximumId: nat,
    specials: seq<Special>,
    addPrefixSpace: bool,
    useRegex: bool,
    hash: PieceHash)

  /** Encode flags; `known` tells that no other bit is set. */
  datatype Flags = Flags(
    known: bool,
    disableSpecials: bool,
    addPrefixSpace: bool,
    disableRegex: bool,
    disableCache: bool)

  // ---- Special tokens ------------------------------------------------------

  predicate StartsWith(text: seq<Byte>, prefix: seq<Byte>) {
    |prefix| <= |text| && text[..|prefix|] == prefix
  }

  /** The first special token, in match order, that starts the text. */
  function FirstSpecial(specials: seq<Special>, text: seq<Byte>): (r: Option<Special>)
    ensures r.Some? ==> r.value in specials && StartsWith(text, r.value.text)
    ensures r.None? ==> forall s :: s in specials ==> !StartsWith(text, s.text)
  {
    if specials == [] then None
    else if StartsWith(text, specials[0].text) then Some(specials[0])
    else FirstSpecial(specials[1..], text)
  }

  method FindSpecialTokenAt(specials: seq<Special>, text: seq<Byte>) returns (r: Option<Special>)
    ensures r == FirstSpecial(specials, text)
  {
    assert specials[0..] == specials;
    for i := 0 to |specials|
      invariant FirstSpecial(specials, text) == FirstSpecial(specials[i..], text)
    {
      if |specials[i].text| <= |text| && StartsWith(text, specials[i].text) {
        return Some(specials[i]);
      }
      assert specials[i..][1..] == specials[i + 1..];
    }
    return None;
  }

  /** Longest text first, then the smaller id. */
  predicate Before(a: Special, b: Special) {
    |a.text| > |b.text| || (|a.text| == |b.text| && a.id <= b.id)
  }

  ghost predicate InOrder(specials: seq<Special>) {
    forall i, j :: 0 <= i < j < |specials| ==> Before(specials[i], specials[j])
  }

  /** In match order, the special token found is the longest that starts the text. */
  lemma {:induction false} LongestSpecialWins(specials: seq<Special>, text: seq<Byte>, s: Special)
    requires InOrder(specials) && s in specials && StartsWith(text, s.text)
    ensures FirstSpecial(specials, text).Some? && |FirstSpecial(specials, text).value.text| >= |s.text|
  {
    if !StartsWith(text, specials[0].text) {
      LongestSpecialWins(specials[1..], text, s);
    }
  }

  // ---- What a text encodes to ----------------------------------------------

  /** The pieces in turn. A failing piece counts as one more invalid segment. */
  function PiecesOutput(t: Model, pieces: seq<seq<Byte>>): Output {
    if pieces == [] then NOTHING
    else
      var first := PieceOutput(t.merges, t.byteTokens, pieces[0]);
      if first.error.Some? then first.(invalid := first.invalid + 1) else Then(first, PiecesOutput(t, pieces[1..]))
  }

  /** Text between special tokens. */
  function SegmentOutput(t: Model, f: Flags, text: seq<Byte>): Output {
    if text == [] then NOTHING
    else if !t.useRegex || f.disableRegex then PieceOutput(t.merges, t.byteTokens, text)
    else PiecesOutput(t, P.Pieces(text, 0))
  }

  function SpecialAt(t: Model, f: Flags, text: seq<Byte>, position: nat): (r: Option<Special>)
    requires position <= |text|
    ensures r.Some? ==> |r.value.text| <= |text| - position
  {
    if f.disableSpecials then None else FirstSpecial(t.specials, text[position..])
  }

  /**
   * The loop over the text ends: it does not reach a position where the special token that matches is empty,
   * unless the segment before it fails.
   */
  predicate Ends(t: Model, f: Flags, text: seq<Byte>, start: nat, position: nat)
    requires start <= position <= |text|
    decreases |text| - position
  {
    || f.disableSpecials
    || position == |text|
    || match SpecialAt(t, f, text, position)
       case None => Ends(t, f, text, start, position + 1)
       case Some(s) =>
         var next := position + |s.text|;
         SegmentOutput(t, f, text[start..position]).error.Some? || (s.text != [] && Ends(t, f, text, next, next))
  }

  /** The rest of the text from `position`, with the segment begun at `start` still to be encoded. */
  function RestOutput(t: Model, f: Flags, text: seq<Byte>, start: nat, position: nat): Output
    requires start <= position <= |text| && Ends(t, f, text, start, position)
    decreases |text| - position
  {
    if position == |text| then SegmentOutput(t, f, text[start..])
    else
      var special := SpecialAt(t, f, text, position);
      if special.None? then RestOutput(t, f, text, start, position + 1)
      else
        var segment, next := SegmentOutput(t, f, text[start..position]), position + |special.value.text|;
        if segment.error.Some? then segment
        else Then(segment, Then(Output([special.value.id], 0, None), RestOutput(t, f, text, next, next)))
  }

  function PrefixOutput(t: Model, f: Flags, text: seq<Byte>): Output {
    if (f.addPrefixSpace || t.addPrefixSpace) && (text == [] || text[0] != P.SPACE) then SegmentOutput(t, f, [P.SPACE])
    else NOTHING
  }

  /** Encoding the text ends, with or without an error. */
  predicate TextEnds(t: Model, f: Flags, text: seq<Byte>) {
    PrefixOutput(t, f, text).error.Some? || Ends(t, f, text, 0, 0)
  }

  /** What a text encodes to, cache or no cache. */
  function TextOutput(t: Model, f: Flags, text: seq<Byte>): Output
    requires TextEnds(t, f, text)
  {
    var prefix := PrefixOutput(t, f, text);
    if prefix.error.Some? then prefix else Then(prefix, RestOutput(t, f, text, 0, 0))
  }

  /** How an encode into a buffer ends. */
  function Status(out: Output, e: Encoding): Result<(), Error> {
    if out.error.Some? then Err(out.error.value) else if e.overflow != 0 then Err(CapacityExceeded) else Ok(())
  }

  // ---- When the loop ends --------------------------------------------------

  /** Where the loop over the text stands: at a position, or stopped by an error. */
  datatype Scan = Scanning(start: nat, position: nat) | Failed

  predicate Halted(text: seq<Byte>, s: Scan) {
    s.Failed? || s.position >= |text|
  }

  /** One turn of the loop. */
  function Turn(t: Model, f: Flags, text: seq<Byte>, s: Scan): (r: Scan)
    requires !Halted(text, s) && s.start <= s.position
    ensures r.Scanning? ==> r.start <= r.position <= |text|
  {
    match SpecialAt(t, f, text, s.position)
    case None => Scanning(s.start, s.position + 1)
    case Some(special) =>
      if SegmentOutput(t, f, text[s.start..s.position]).error.Some? then Failed
      else Scanning(s.position + |special.text|, s.position + |special.text|)
  }

  /** The loop after `n` turns, or where it halted before. */
  function Turns(t: Model, f: Flags, text: seq<Byte>, s: Scan, n: nat): Scan
    requires s.Scanning? ==> s.start <= s.position
    decreases n
  {
    if n == 0 || Halted(text, s) then s else Turns(t, f, text, Turn(t, f, text, s), n - 1)
  }

  lemma {:induction false} EndingHalts(t: Model, f: Flags, text: seq<Byte>, start: nat, position: nat) returns (n: nat)
    requires start <= position <= |text| && Ends(t, f, text, start, position)
    ensures Halted(text, Turns(t, f, text, Scanning(start, position), n))
    decreases |text| - position
  {
    n := 0;
    if position < |text| {
      var r := Turn(t, f, text, Scanning(start, position));
      if !Halted(text, r) {
        n := EndingHalts(t, f, text, r.start, r.position);
      }
      n := n + 1;
    }
  }

  lemma {:induction false} NotEndingNeverHalts(t: Model, f: Flags, text: seq<Byte>, start: nat, position: nat, n: nat)
    requires start <= position <= |text| && !Ends(t, f, text, start, position)
    ensures !Halted(text, Turns(t, f, text, Scanning(start, position), n))
    decreases n
  {
    if n > 0 {
      var r := Turn(t, f, text, Scanning(start, position));
      assert text[position..position] == [];
      NotEndingNeverHalts(t, f, text, r.start, r.position, n - 1);
    }
  }

  /** The loop over the text takes at most `n` turns. */
  predicate HaltsWithin(t: Model, f: Flags, text: seq<Byte>, n: nat) {
    Halted(text, Turns(t, f, text, Scanning(0, 0), n))
  }

  /** The loop halts exactly on the texts that end. */
  lemma HaltsIffItEnds(t: Model, f: Flags, text: seq<Byte>)
    ensures Ends(t, f, text, 0, 0) <==> exists n: nat :: HaltsWithin(t, f, text, n)
  {
    if Ends(t, f, text, 0, 0) {
      var n := EndingHalts(t, f, text, 0, 0);
      assert HaltsWithin(t, f, text, n);
    } else {
      forall n: nat ensures !HaltsWithin(t, f, text, n) {
        NotEndingNeverHalts(t, f, text, 0, 0, n);
      }
    }
  }

  predicate NoEmptySpecial(specials: seq<Special>) {
    forall s :: s in specials ==> s.text != []
  }

  ghost predicate ByteIsSpecial(specials: seq<Special>, b: Byte) {
    exists s :: s in specials && s.text == [b]
  }

  /** Every byte by itself is a special token. */
  ghost predicate EveryByteIsSpecial(specials: seq<Special>) {
    forall b: Byte :: ByteIsSpecial(specials, b)
  }

  /** No special token that matches at a text's start is empty: none is at all, or a longer one always comes first. */
  lemma MatchIsNotEmpty(specials: seq<Special>, text: seq<Byte>)
    requires InOrder(specials) && (NoEmptySpecial(specials) || EveryByteIsSpecial(specials)) && text != []
    ensures FirstSpecial(specials, text).Some? ==> FirstSpecial(specials, text).value.text != []
  {
    if !NoEmptySpecial(specials) {
      assert ByteIsSpecial(specials, text[0]);
      var s :| s in specials && s.text == [text[0]];
      LongestSpecialWins(specials, text, s);
    }
  }

  lemma {:induction false} AdvancingEnds(t: Model, f: Flags, text: seq<Byte>, start: nat, position: nat)
    requires start <= position <= |text| && InOrder(t.specials)
    requires NoEmptySpecial(t.specials) || EveryByteIsSpecial(t.specials)
    ensures Ends(t, f, text, start, position)
    decreases |text| - position
  {
    if position < |text| && !f.disableSpecials {
      MatchIsNotEmpty(t.specials, text[position..]);
      match SpecialAt(t, f, text, position)
      case None => AdvancingEnds(t, f, text, start, position + 1);
      case Some(s) => AdvancingEnds(t, f, text, position + |s.text|, position + |s.text|);
    }
  }

  /** A byte that is no special token stalls the loop when an empty special token matches there instead. */
  lemma LoneByteStalls(t: Model, f: Flags, b: Byte)
    requires !f.disableSpecials && !NoEmptySpecial(t.specials) && !ByteIsSpecial(t.specials, b)
    ensures !Ends(t, f, [b], 0, 0)
  {
    var empty :| empty in t.specials && empty.text == [];
    var text := [b];
    assert text[0..] == text && text[0..0] == [];
    assert StartsWith(text, empty.text);
    var s := FirstSpecial(t.specials, text).value;
    assert |s.text| == 1 ==> s.text == [b];
  }

  /**
   * With special tokens in match order, the loop ends on every text exactly when matching is off, no special
   * token is empty, or every byte by itself is a special token.
   */
  lemma EveryTextEndsIff(t: Model, f: Flags)
    requires InOrder(t.specials)
    ensures (forall text :: Ends(t, f, text, 0, 0))
            <==> f.disableSpecials || NoEmptySpecial(t.specials) || EveryByteIsSpecial(t.specials)
  {
    if NoEmptySpecial(t.specials) || EveryByteIsSpecial(t.specials) {
      forall text ensures Ends(t, f, text, 0, 0) {
        AdvancingEnds(t, f, text, 0, 0);
      }
    } else if !f.disableSpecials {
      var b: Byte :| !ByteIsSpecial(t.specials, b);
      LoneByteStalls(t, f, b);
    }
  }

  /** With one empty special token and matching on, the loop stays at the first byte of "A" for ever. */
  lemma {:induction false} EmptySpecialStalls(t: Model, f: Flags, n: nat)
    requires t.specials == [Special([], 0)] && !f.disableSpecials
    ensures Turns(t, f, [65], Scanning(0, 0), n) == Scanning(0, 0) && !Ends(t, f, [65], 0, 0)
  {
    var text: seq<Byte> := [65];
    assert text[0..] == text && text[0..0] == [] && StartsWith(text, t.specials[0].text);
    if n > 0 {
      EmptySpecialStalls(t, f, n - 1);
    }
  }

  // ---- Encoding through a workspace ----------------------------------------

  /** What the pieces from `position` on emit, sealed behind a recursion. */
  ghost function TailSeal(t: Model, text: seq<Byte>, position: nat, n: nat): Output
    requires position <= |text|
  {
    if n > 0 then TailSeal(t, text, position, n - 1) else PiecesOutput(t, P.Pieces(text, position))
  }

  ghost function Tail(t: Model, text: seq<Byte>, position: nat): Output
    requires position <= |text|
  {
    TailSeal(t, text, position, position + 2)
  }

  lemma {:induction false} TailIs(t: Model, text: seq<Byte>, position: nat, n: nat)
    requires position <= |text|
    ensures TailSeal(t, text, position, n) == PiecesOutput(t, P.Pieces(text, position))
  {
    if n > 0 {
      TailIs(t, text, position, n - 1);
    }
  }

  /** One piece emitted: the rest is what remains, or the whole ends here. */
  lemma PieceEmitted(t: Model, text: seq<Byte>, position: nat, start: Encoding, e: Encoding, all: Output)
    requires position < |text| && Pending(start, e, all, Tail(t, text, position))
    ensures var end := P.PieceEnd(text, position);
      var out := PieceOutput(t.merges, t.byteTokens, text[position..end]);
      if out.error.None? then Pending(start, Deliver(e, out), all, Tail(t, text, end))
      else Deliver(start, all) == Deliver(e, out).(invalid := Deliver(e, out).invalid + 1) && all.error == out.error
  {
    var end := P.PieceEnd(text, position);
    var pieces := P.Pieces(text, position);
    var out := PieceOutput(t.merges, t.byteTokens, text[position..end]);
    assert pieces[0] == text[position..end] && pieces[1..] == P.Pieces(text, end);
    TailIs(t, text, position, position + 2);
    TailIs(t, text, end, end + 2);
    if out.error.None? {
      PendingStep(start, e, all, out, PiecesOutput(t, P.Pieces(text, end)));
    } else {
      PendingEnd(start, e, all, PiecesOutput(t, pieces));
      DeliverIs(e, out);
      DeliverIs(e, PiecesOutput(t, pieces));
    }
  }

  /** Encode the piece at `position`; a failing piece counts as an invalid segment. */
  method EncodeNextPiece(t: Model, f: Flags, w: Workspace, text: seq<Byte>, position: nat, encoding: Encoding,
                         ghost start: Encoding, ghost all: Output)
    returns (r: Result<(), Error>, e: Encoding, next: nat)
    requires w.Valid(t.merges, t.byteTokens) && position < |text| <= w.maximum
    requires Pending(start, encoding, all, Tail(t, text, position))
    modifies w`symbols, w`heap, w`cache
    ensures w.Valid(t.merges, t.byteTokens) && position < next <= |text|
    ensures r.Ok? ==> Pending(start, e, all, Tail(t, text, next))
    ensures r.Err? ==> e == Deliver(start, all) && r == Ended(all)
  {
    var found := P.FindNextPiece(text, position);
    next := found.value.0 + found.value.1;
    r, e := w.EncodeByteLevelPiece(t.hash, t.merges, t.byteTokens, text[position..next], f.disableCache, encoding);
    PieceEmitted(t, text, position, start, encoding, all);
    if r.Err? {
      e := e.(invalid := e.invalid + 1);
    }
  }

  /** Encode the pieces of a text, one after another. */
  method EncodePieces(t: Model, f: Flags, w: Workspace, text: seq<Byte>, encoding: Encoding)
    returns (r: Result<(), Error>, e: Encoding)
    requires w.Valid(t.merges, t.byteTokens) && |text| <= w.maximum && Fits(encoding)
    modifies w`symbols, w`heap, w`cache
    ensures w.Valid(t.merges, t.byteTokens)
    ensures e == Deliver(encoding, PiecesOutput(t, P.Pieces(text, 0))) && r == Ended(PiecesOutput(t, P.Pieces(text, 0)))
  {
    e := encoding;
    var position := 0;
    ghost var all := Tail(t, text, 0);
    PendingStart(encoding, all);
    TailIs(t, text, 0, 2);
    while position < |text|
      invariant w.Valid(t.merges, t.byteTokens) && position <= |text| && Fits(e)
      invariant Pending(encoding, e, all, Tail(t, text, position))
    {
      r, e, position := EncodeNextPiece(t, f, w, text, position, e, encoding, all);
      if r.Err? {
        return;
      }
    }
    PendingEnd(encoding, e, all, Tail(t, text, position));
    TailIs(t, text, position, position + 2);
    DeliverNothing(e);
    return Ok(()), e;
  }

  method EncodeRegularSegment(t: Model, f: Flags, w: Workspace, text: seq<Byte>, encoding: Encoding)
    returns (r: Result<(), Error>, e: Encoding)
    requires w.Valid(t.merges, t.byteTokens) && |text| <= w.maximum && Fits(encoding)
    modifies w`symbols, w`heap, w`cache
    ensures w.Valid(t.merges, t.byteTokens)
    ensures e == Deliver(encoding, SegmentOutput(t, f, text)) && r == Ended(SegmentOutput(t, f, text))
  {
    if text == [] {
      DeliverNothing(encoding);
      return Ok(()), encoding;
    }
    if !t.useRegex || f.disableRegex {
      r, e := w.EncodeByteLevelPiece(t.hash, t.merges, t.byteTokens, text, f.disableCache, encoding);
      return;
    }
    r, e := EncodePieces(t, f, w, text, encoding);
  }

  /** What is left to emit where the loop ends, sealed behind a recursion. */
  ghost function RemainingSeal(t: Model, f: Flags, text: seq<Byte>, start: nat, position: nat, n: nat): Option<Output> {
    if n > 0 then RemainingSeal(t, f, text, start, position, n - 1)
    else if start <= position <= |text| && Ends(t, f, text, start, position)
    then Some(RestOutput(t, f, text, start, position))
    else None
  }

  /** The loop ends from here, with `rest` left to emit. */
  ghost predicate Remains(t: Model, f: Flags, text: seq<Byte>, start: nat, position: nat, rest: Output) {
    RemainingSeal(t, f, text, start, position, position + 2) == Some(rest)
  }

  lemma {:induction false} UnsealRemaining(t: Model, f: Flags, text: seq<Byte>, start: nat, position: nat, n: nat)
    ensures RemainingSeal(t, f, text, start, position, n)
            == if start <= position <= |text| && Ends(t, f, text, start, position)
               then Some(RestOutput(t, f, text, start, position)) else None
  {
    if n > 0 {
      UnsealRemaining(t, f, text, start, position, n - 1);
    }
  }

  lemma RemainsMeans(t: Model, f: Flags, text: seq<Byte>, start: nat, position: nat, rest: Output)
    ensures Remains(t, f, text, start, position, rest) <==>
      start <= position <= |text| && Ends(t, f, text, start, position)
      && rest == RestOutput(t, f, text, start, position)
  {
    UnsealRemaining(t, f, text, start, position, position + 2);
  }

  /** A byte that starts no special token joins the segment. */
  lemma PassByte(t: Model, f: Flags, text: seq<Byte>, start: nat, position: nat, rest: Output)
    requires position < |text| && Remains(t, f, text, start, position, rest) && SpecialAt(t, f, text, position).None?
    ensures Remains(t, f, text, start, position + 1, rest)
  {
    RemainsMeans(t, f, text, start, position, rest);
    RemainsMeans(t, f, text, start, position + 1, rest);
  }

  lemma DeliverToken(e: Encoding, token: nat)
    requires Fits(e)
    ensures Append(e, token) == Deliver(e, Output([token], 0, None))
  {
    DeliverIs(e, Output([token], 0, None));
    var none: seq<nat> := [];
    assert e.tokens + none == e.tokens;
    AppendedOneMore(e, none, token);
    assert none + [token] == [token];
  }

  /** A segment and a special token emitted: the rest is what remains, or the whole ends with the segment. */
  lemma SpecialEmitted(t: Model, f: Flags, text: seq<Byte>, from: nat, position: nat, start: Encoding, e: Encoding,
                       all: Output, left: Output)
    returns (rest: Output)
    requires from <= position < |text| && Remains(t, f, text, from, position, left)
      && SpecialAt(t, f, text, position).Some?
    requires Pending(start, e, all, left)
    ensures var s := SpecialAt(t, f, text, position).value;
      var segment, next := SegmentOutput(t, f, text[from..position]), position + |s.text|;
      if segment.error.None?
      then && s.text != [] && Remains(t, f, text, next, next, rest)
           && Fits(Append(Deliver(e, segment), s.id)) && Pending(start, Append(Deliver(e, segment), s.id), all, rest)
      else Deliver(start, all) == Deliver(e, segment) && all.error == segment.error
  {
    var s := SpecialAt(t, f, text, position).value;
    var segment, token := SegmentOutput(t, f, text[from..position]), Output([s.id], 0, None);
    var next := position + |s.text|;
    rest := NOTHING;
    RemainsMeans(t, f, text, from, position, left);
    if segment.error.None? {
      rest := RestOutput(t, f, text, next, next);
      RemainsMeans(t, f, text, next, next, rest);
      PendingStep(start, e, all, segment, Then(token, rest));
      PendingStep(start, Deliver(e, segment), all, token, rest);
      DeliverToken(Deliver(e, segment), s.id);
    } else {
      PendingEnd(start, e, all, segment);
    }
  }

  /** Alternate between special tokens and the segments around them. */
  method EncodeRest(t: Model, f: Flags, w: Workspace, text: seq<Byte>, encoding: Encoding)
    returns (r: Result<(), Error>, e: Encoding)
    requires w.Valid(t.merges, t.byteTokens) && |text| < w.maximum && Ends(t, f, text, 0, 0) && Fits(encoding)
    modifies w`symbols, w`heap, w`cache
    ensures w.Valid(t.merges, t.byteTokens)
    ensures e == Deliver(encoding, RestOutput(t, f, text, 0, 0)) && r == Ended(RestOutput(t, f, text, 0, 0))
  {
    e := encoding;
    var position, start := 0, 0;
    ghost var all := RestOutput(t, f, text, 0, 0);
    ghost var left := all;
    PendingStart(encoding, all);
    RemainsMeans(t, f, text, 0, 0, all);
    while position < |text|
      invariant w.Valid(t.merges, t.byteTokens) && 0 <= start <= position <= |text|
      invariant Remains(t, f, text, start, position, left) && Pending(encoding, e, all, left)
    {
      var special: Option<Special> := None;
      if !f.disableSpecials {
        special := FindSpecialTokenAt(t.specials, text[position..]);
      }
      if special.Some? {
        left := SpecialEmitted(t, f, text, start, position, encoding, e, all, left);
        r, e := EncodeRegularSegment(t, f, w, text[start..position], e);
        if r.Err? {
          return;
        }
        e := Append(e, special.value.id);
        position := position + |special.value.text|;
        start := position;
      } else {
        PassByte(t, f, text, start, position, left);
        position := position + 1;
      }
    }
    PendingEnd(encoding, e, all, left);
    RemainsMeans(t, f, text, start, position, left);
    r, e := EncodeRegularSegment(t, f, w, text[start..], e);
  }

  /**
   * Encode a text. Whatever the workspace has encoded before for this tokenizer, the outcome is that of a
   * workspace without a cache, cut off at the caller's capacity.
   */
  method EncodeWithWorkspace(t: Model, f: Flags, w: Workspace, text: seq<Byte>, encoding: Encoding)
    returns (r: Result<(), Error>, e: Encoding)
    requires w.Valid(t.merges, t.byteTokens) && (f.known ==> TextEnds(t, f, text))
    modifies w
    ensures w.Valid(t.merges, t.byteTokens) && w.maximum >= old(w.maximum)
    ensures !f.known ==> r == Err(InvalidArgument) && e == encoding
    ensures f.known && |text| >= old(w.maximum) && 4 * |text| + 20 > 0xFFFF_FFFF ==>
      r == Err(CapacityExceeded) && e == encoding
    ensures f.known && (|text| < old(w.maximum) || 4 * |text| + 20 <= 0xFFFF_FFFF) ==>
      var out := TextOutput(t, f, text);
      e == Deliver(Empty(encoding.capacity), out) && r == Status(out, e)
  {
    if !f.known {
      return Err(InvalidArgument), encoding;
    }
    var grown := w.EnsureSymbolBuffers(|text| + 1);
    if grown.Err? {
      return Err(grown.error), encoding;
    }
    e := Empty(encoding.capacity);
    ghost var all := TextOutput(t, f, text);
    PendingStart(e, all);
    if (f.addPrefixSpace || t.addPrefixSpace) && (text == [] || text[0] != P.SPACE) {
      r, e := EncodeRegularSegment(t, f, w, [P.SPACE], e);
      if r.Err? {
        return;
      }
    } else {
      DeliverNothing(e);
    }
    PendingStep(Empty(encoding.capacity), Empty(encoding.capacity), all, PrefixOutput(t, f, text),
                RestOutput(t, f, text, 0, 0));
    PendingEnd(Empty(encoding.capacity), e, all, RestOutput(t, f, text, 0, 0));
    r, e := EncodeRest(t, f, w, text, e);
    if r.Ok? && e.overflow != 0 {
      return Err(CapacityExceeded), e;
    }
  }
}
