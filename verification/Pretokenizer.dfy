/** Splitting text into pieces before merging: contractions, and runs of one class with an optional leading space. */
module Pretokenizer {
  import opened Results
  import opened ByteText

  /** 1 whitespace, 2 letter or any byte from 0x80, 3 digit, 4 everything else. */
  function ByteClass(b: Byte): nat {
    if 9 <= b <= 13 || b == 32 then 1
    else if 65 <= b <= 90 || 97 <= b <= 122 || 128 <= b then 2
    else if 48 <= b <= 57 then 3
    else 4
  }

  predicate IsWhitespace(b: Byte) {
    b == 32 || b == 9 || b == 10 || b == 13 || b == 0x0B || b == 0x0C
  }

  /** ASCII letters in lower case. */
  function Lower(b: Byte): Byte {
    if 65 <= b <= 90 then b + 32 else b
  }

  const APOSTROPHE: Byte := 39
  const SPACE: Byte := 32

  /** The length of the contraction at `position`: 's 't 'm 'd, or 're 've 'll. */
  function Contraction(text: seq<Byte>, position: nat): (n: Option<nat>)
    ensures n.Some? ==> 2 <= n.value <= 3 && position + n.value <= |text| && text[position] == APOSTROPHE
  {
    if position + 1 >= |text| || text[position] != APOSTROPHE then None
    else
      var first := Lower(text[position + 1]);
      if first == 115 || first == 116 || first == 109 || first == 100 then Some(2)
      else if position + 2 >= |text| then None
      else
        var second := Lower(text[position + 2]);
        if (first == 114 && second == 101) || (first == 118 && second == 101) || (first == 108 && second == 108)
        then Some(3)
        else None
  }

  // ---- What the byte tables stand for --------------------------------------

  /** The classes in characters: blanks, ASCII letters and whatever is not ASCII, digits, and the rest. */
  lemma ClassesAreMeant(b: Byte)
    ensures ByteClass(b) == 1 <==> b as char in {' ', '\t', '\n', '\r', 11 as char, 12 as char}
    ensures ByteClass(b) == 2 <==> 'a' <= b as char <= 'z' || 'A' <= b as char <= 'Z' || b >= 0x80
    ensures ByteClass(b) == 3 <==> '0' <= b as char <= '9'
    ensures 1 <= ByteClass(b) <= 4 && (IsWhitespace(b) <==> ByteClass(b) == 1)
  {
  }

  const CONTRACTIONS: seq<string> := ["'s", "'t", "'m", "'d", "'re", "'ve", "'ll"]

  /** A byte is a character, or its upper case if it is a letter. */
  predicate IsEitherCase(b: Byte, c: char) {
    b == c as int || ('a' <= c <= 'z' && b + 32 == c as int)
  }

  /** A string stands at a position, in upper or lower case. */
  ghost predicate StandsAt(text: seq<Byte>, position: nat, s: string) {
    position + |s| <= |text| && forall i :: 0 <= i < |s| ==> IsEitherCase(text[position + i], s[i])
  }

  lemma ContractionStands(text: seq<Byte>, position: nat, i: nat)
    requires i < |CONTRACTIONS| && StandsAt(text, position, CONTRACTIONS[i])
    ensures Contraction(text, position) == Some(|CONTRACTIONS[i]|)
  {
    var s := CONTRACTIONS[i];
    assert IsEitherCase(text[position], s[0]) && IsEitherCase(text[position + 1], s[1]);
    assert i >= 4 ==> IsEitherCase(text[position + 2], s[2]);
  }

  /** Which of them a contraction is. */
  function ContractionAt(text: seq<Byte>, position: nat): nat
    requires Contraction(text, position).Some?
  {
    var first := Lower(text[position + 1]);
    if first == 115 then 0 else if first == 116 then 1 else if first == 109 then 2 else if first == 100 then 3
    else if first == 114 then 4 else if first == 118 then 5 else 6
  }

  lemma FoundStands(text: seq<Byte>, position: nat)
    requires Contraction(text, position).Some?
    ensures var i := ContractionAt(text, position);
      |CONTRACTIONS[i]| == Contraction(text, position).value && StandsAt(text, position, CONTRACTIONS[i])
  {
    var s := CONTRACTIONS[ContractionAt(text, position)];
    assert IsEitherCase(text[position], s[0]) && IsEitherCase(text[position + 1], s[1]);
    assert |s| == 3 ==> IsEitherCase(text[position + 2], s[2]);
  }

  /** A contraction is found exactly where one of the seven stands. */
  lemma ContractionIff(text: seq<Byte>, position: nat, n: nat)
    ensures Contraction(text, position) == Some(n) <==>
      exists i :: 0 <= i < |CONTRACTIONS| && |CONTRACTIONS[i]| == n && StandsAt(text, position, CONTRACTIONS[i])
  {
    if Contraction(text, position) == Some(n) {
      FoundStands(text, position);
    }
    forall i | 0 <= i < |CONTRACTIONS| && StandsAt(text, position, CONTRACTIONS[i])
      ensures Contraction(text, position) == Some(|CONTRACTIONS[i]|)
    {
      ContractionStands(text, position, i);
    }
  }

  // ---- Runs ----------------------------------------------------------------

  /** Where a run stops: at the end, at another class, or, for class 4, at a contraction. */
  predicate StopsAt(text: seq<Byte>, position: nat, c: nat) {
    position >= |text| || ByteClass(text[position]) != c || (c == 4 && Contraction(text, position).Some?)
  }

  /** The end of the run of class `c` from `position`. */
  function RunEnd(text: seq<Byte>, position: nat, c: nat): (e: nat)
    requires position <= |text|
    ensures position <= e <= |text| && StopsAt(text, e, c)
    ensures forall i :: position <= i < e ==> !StopsAt(text, i, c)
    decreases |text| - position
  {
    if StopsAt(text, position, c) then position else RunEnd(text, position + 1, c)
  }

  /** The sweep for letters, digits and whitespace, which no contraction can cut short. */
  method ScanClassRun(text: seq<Byte>, start: nat, c: nat) returns (e: nat)
    requires start <= |text| && c != 4
    ensures e == RunEnd(text, start, c)
  {
    e := start;
    while e < |text| && ByteClass(text[e]) == c
      invariant start <= e <= |text| && RunEnd(text, start, c) == RunEnd(text, e, c)
    {
      e := e + 1;
    }
  }

  /** The sweep for other bytes, which stops at a contraction. */
  method ScanOtherRun(text: seq<Byte>, start: nat) returns (e: nat)
    requires start <= |text|
    ensures e == RunEnd(text, start, 4)
  {
    e := start;
    while e < |text| && ByteClass(text[e]) == 4
      invariant start <= e <= |text| && RunEnd(text, start, 4) == RunEnd(text, e, 4)
    {
      if Contraction(text, e).Some? {
        break;
      }
      e := e + 1;
    }
  }

  // ---- Pieces --------------------------------------------------------------

  predicate LeadingSpace(text: seq<Byte>, position: nat) {
    position + 1 < |text| && text[position] == SPACE && !IsWhitespace(text[position + 1])
  }

  /** Where the piece that starts at `position` ends: it is never empty. */
  function PieceEnd(text: seq<Byte>, position: nat): (e: nat)
    requires position < |text|
    ensures position < e <= |text|
  {
    if Contraction(text, position).Some? then position + Contraction(text, position).value
    else if LeadingSpace(text, position) then RunEnd(text, position + 1, ByteClass(text[position + 1]))
    else RunEnd(text, position, ByteClass(text[position]))
  }

  /** The next piece. It is found wherever text is left, so pretokenization never stalls. */
  method FindNextPiece(text: seq<Byte>, position: nat) returns (r: Option<(nat, nat)>)
    ensures position >= |text| ==> r.None?
    ensures position < |text| ==> r == Some((position, PieceEnd(text, position) - position))
  {
    if position >= |text| {
      return None;
    }
    var contraction := Contraction(text, position);
    if contraction.Some? {
      return Some((position, contraction.value));
    }
    var start := if LeadingSpace(text, position) then position + 1 else position;
    var c := ByteClass(text[start]);
    var end;
    if c == 4 {
      end := ScanOtherRun(text, start);
    } else {
      end := ScanClassRun(text, start, c);
    }
    if end == position {
      return None;
    }
    return Some((position, end - position));
  }

  /** The pieces from `position` on. */
  function Pieces(text: seq<Byte>, position: nat): seq<seq<Byte>>
    requires position <= |text|
    decreases |text| - position
  {
    if position == |text| then []
    else [text[position..PieceEnd(text, position)]] + Pieces(text, PieceEnd(text, position))
  }

  function Joined(pieces: seq<seq<Byte>>): seq<Byte> {
    if pieces == [] then [] else pieces[0] + Joined(pieces[1..])
  }

  /** The pieces partition the text: put together they give it back. */
  lemma {:induction false} PiecesPartition(text: seq<Byte>, position: nat)
    requires position <= |text|
    ensures Joined(Pieces(text, position)) == text[position..]
    decreases |text| - position
  {
    if position < |text| {
      var e := PieceEnd(text, position);
      PiecesPartition(text, e);
      assert Pieces(text, position)[1..] == Pieces(text, e);
      assert text[position..e] + text[e..] == text[position..];
    }
  }

  /** Bytes `from .. end` all have class `c`, and the run goes no further. */
  ghost predicate IsRun(text: seq<Byte>, from: nat, end: nat, c: nat) {
    from < end <= |text| && StopsAt(text, end, c) && forall i :: from <= i < end ==> ByteClass(text[i]) == c
  }

  /**
   * A piece is a contraction, a lone space before one, or a maximal run of one class, with a leading space when
   * the run is not whitespace.
   */
  ghost predicate IsPiece(text: seq<Byte>, from: nat, end: nat) {
    && from < end <= |text|
    && (|| Contraction(text, from) == Some(end - from)
        || IsRun(text, from, end, ByteClass(text[from]))
        || (&& text[from] == SPACE && from + 1 < |text| && ByteClass(text[from + 1]) != 1
            && (|| IsRun(text, from + 1, end, ByteClass(text[from + 1]))
                || (end == from + 1 && Contraction(text, end).Some?))))
  }

  lemma PieceIsWellShaped(text: seq<Byte>, position: nat)
    requires position < |text|
    ensures IsPiece(text, position, PieceEnd(text, position))
  {
    if Contraction(text, position).None? {
      var start := if LeadingSpace(text, position) then position + 1 else position;
      var e, c := PieceEnd(text, position), ByteClass(text[start]);
      forall i | start <= i < e ensures ByteClass(text[i]) == c {
        assert !StopsAt(text, i, c);
      }
    }
  }
}
