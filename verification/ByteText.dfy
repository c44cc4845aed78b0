/**
 * Token text: each byte is written as a printable code point, in the UTF-8 forms
 * of section 3 of RFC 3629, and read back.
 */
module ByteText {
  import opened Results

  type Byte = b: nat | b < 256

  // ---- Bytes and code points -----------------------------------------------

  /** Bytes that stand for themselves. */
  predicate Printable(x: nat) {
    33 <= x <= 126 || 161 <= x <= 172 || 174 <= x <= 255
  }

  /** How many code points below `x` are not printable. */
  function Unprintable(x: nat): (n: nat)
    ensures n <= x
  {
    if x == 0 then 0 else Unprintable(x - 1) + if Printable(x - 1) then 0 else 1
  }

  /** Printable bytes are themselves; the others are numbered from 256 up. */
  function ByteToCodePoint(b: Byte): (c: nat)
    ensures c <= 511 && (c < 256 <==> Printable(b))
  {
    if Printable(b) then b else 256 + Unprintable(b)
  }

  /** Search the bytes from `candidate` up, the unprintable ones being numbered from `next`. */
  function SearchByte(c: nat, candidate: nat, next: nat): (b: Option<Byte>)
    decreases 256 - candidate
  {
    if candidate >= 256 then None
    else if Printable(candidate) then SearchByte(c, candidate + 1, next)
    else if c == next then Some(candidate)
    else SearchByte(c, candidate + 1, next + 1)
  }

  function CodePointToByte(c: nat): Option<Byte> {
    if Printable(c) then Some(c) else SearchByte(c, 0, 256)
  }

  lemma {:induction false} UnprintableIncreases(a: nat, b: nat)
    requires a < b && !Printable(a)
    ensures Unprintable(a) < Unprintable(b)
  {
    if a < b - 1 {
      UnprintableIncreases(a, b - 1);
    }
  }

  lemma {:induction false} SearchFinds(b: Byte, candidate: nat)
    requires !Printable(b) && candidate <= b
    ensures SearchByte(256 + Unprintable(b), candidate, 256 + Unprintable(candidate)) == Some(b)
    decreases b - candidate
  {
    if candidate < b {
      SearchFinds(b, candidate + 1);
      if !Printable(candidate) {
        UnprintableIncreases(candidate, b);
      }
    }
  }

  /** The search answers only the byte with that number. */
  lemma {:induction false} SearchIsExact(c: nat, candidate: nat)
    requires candidate <= 256
    ensures var b := SearchByte(c, candidate, 256 + Unprintable(candidate));
      b.Some? ==> !Printable(b.value) && c == 256 + Unprintable(b.value)
    decreases 256 - candidate
  {
    if candidate < 256 {
      SearchIsExact(c, candidate + 1);
    }
  }

  /** The two maps are inverse: every byte is recovered, and only from its own code point. */
  lemma BytesAreRecovered(b: Byte, c: nat)
    ensures CodePointToByte(ByteToCodePoint(b)) == Some(b)
    ensures CodePointToByte(c) == Some(b) ==> c == ByteToCodePoint(b)
  {
    if !Printable(b) {
      SearchFinds(b, 0);
    }
    SearchIsExact(c, 0);
  }

  // ---- UTF-8 ---------------------------------------------------------------

  /** One to three bytes; no code point of a byte needs more. */
  function EncodeCodePoint(c: nat): (r: seq<Byte>)
    requires c <= 0xFFFF
    ensures 0 < |r| <= 3
  {
    if c <= 0x7F then [c]
    else if c <= 0x7FF then [0xC0 + c / 64, 0x80 + c % 64]
    else [0xE0 + c / 4096, 0x80 + c / 64 % 64, 0x80 + c % 64]
  }

  /** The bits of `b` below the tag `tag`. */
  function Above(b: Byte, tag: nat): nat
    requires tag <= b
  {
    b - tag
  }

  predicate IsContinuation(b: Byte) { 0x80 <= b < 0xC0 }

  /** The code point at the start of `text` and the bytes it takes, or nothing when it is malformed or cut short. */
  function ReadCodePoint(text: seq<Byte>): (r: Option<(nat, nat)>)
    ensures r.Some? ==> 0 < r.value.1 <= |text|
  {
    if text == [] then None
    else if text[0] < 0x80 then Some((text[0], 1))
    else if 0xC0 <= text[0] < 0xE0 && |text| >= 2 && IsContinuation(text[1]) then
      Some((Above(text[0], 0xC0) * 64 + Above(text[1], 0x80), 2))
    else if 0xE0 <= text[0] < 0xF0 && |text| >= 3 && IsContinuation(text[1]) && IsContinuation(text[2]) then
      Some((Above(text[0], 0xE0) * 4096 + Above(text[1], 0x80) * 64 + Above(text[2], 0x80), 3))
    else if && 0xF0 <= text[0] < 0xF8 && |text| >= 4
            && IsContinuation(text[1]) && IsContinuation(text[2]) && IsContinuation(text[3]) then
      Some((Above(text[0], 0xF0) * 262144 + Above(text[1], 0x80) * 4096 + Above(text[2], 0x80) * 64
            + Above(text[3], 0x80), 4))
    else None
  }

  /** Reading back what was written, whatever follows. */
  lemma CodePointsAreRead(c: nat, rest: seq<Byte>)
    requires c <= 0xFFFF
    ensures ReadCodePoint(EncodeCodePoint(c) + rest) == Some((c, |EncodeCodePoint(c)|))
  {
    var r := EncodeCodePoint(c);
    var text := r + rest;
    assert text[0] == r[0];
    if c > 0x7F {
      assert text[1] == r[1];
      if c > 0x7FF {
        assert text[2] == r[2];
        assert c == c / 4096 * 4096 + c / 64 % 64 * 64 + c % 64;
      }
    }
  }

  /** More text behind a readable code point changes nothing. */
  lemma ReadIgnoresRest(text: seq<Byte>, rest: seq<Byte>)
    requires ReadCodePoint(text).Some?
    ensures ReadCodePoint(text + rest) == ReadCodePoint(text)
  {
    var all := text + rest;
    assert forall i :: 0 <= i < |text| ==> all[i] == text[i];
  }

  // ---- Token text ----------------------------------------------------------

  /** The text of one byte. */
  function ByteSymbol(b: Byte): (r: seq<Byte>)
    ensures r != []
  {
    EncodeCodePoint(ByteToCodePoint(b))
  }

  /** The bytes a token's text stands for. */
  function DecodeText(text: seq<Byte>): (r: Option<seq<Byte>>)
    decreases |text|
  {
    if text == [] then Some([])
    else
      var read := ReadCodePoint(text);
      if read.None? then None
      else
        var b, rest := CodePointToByte(read.value.0), DecodeText(text[read.value.1..]);
        if b.None? || rest.None? then None else Some([b.value] + rest.value)
  }

  lemma SymbolIsDecoded(b: Byte)
    ensures DecodeText(ByteSymbol(b)) == Some([b])
  {
    var c := ByteToCodePoint(b);
    CodePointsAreRead(c, []);
    BytesAreRecovered(b, c);
    var text := ByteSymbol(b);
    assert text + [] == text;
    assert ReadCodePoint(text) == Some((c, |text|));
    assert text[|text|..] == [];
    var none: seq<Byte> := [];
    assert DecodeText(text) == Some([b] + none) && [b] + none == [b];
  }

  /** What is behind the first code point, when more text follows. */
  lemma RestIsJoined(a: seq<Byte>, b: seq<Byte>)
    requires ReadCodePoint(a).Some?
    ensures ReadCodePoint(a + b) == ReadCodePoint(a)
    ensures var n := ReadCodePoint(a).value.1; (a + b)[n..] == a[n..] + b
  {
    ReadIgnoresRest(a, b);
  }

  lemma PrependsJoined(head: seq<Byte>, a: seq<Byte>, b: seq<Byte>)
    ensures head + (a + b) == (head + a) + b
  {
  }

  /** Decoding follows concatenation. */
  lemma {:induction false} DecodeTextJoins(a: seq<Byte>, b: seq<Byte>)
    requires DecodeText(a).Some? && DecodeText(b).Some?
    ensures DecodeText(a + b) == Some(DecodeText(a).value + DecodeText(b).value)
    decreases |a|
  {
    if a == [] {
      assert a + b == b;
      assert [] + DecodeText(b).value == DecodeText(b).value;
    } else {
      var (c, n) := ReadCodePoint(a).value;
      RestIsJoined(a, b);
      DecodeTextJoins(a[n..], b);
      PrependsJoined([CodePointToByte(c).value], DecodeText(a[n..]).value, DecodeText(b).value);
    }
  }
}
