/** What one piece of text encodes to, without heap, chain or cache. */
module PieceEncoding {
  import opened Results
  import opened ByteText
  import opened NaiveBpe

  datatype Error = InvalidArgument | CapacityExceeded | NotFound | FormatError

  /** "No token": `u32::MAX`. */
  const NO_TOKEN := 0xFFFF_FFFF

  /** The token of each byte, or `NO_TOKEN`. */
  type ByteTokens = t: seq<nat> | |t| == 256 witness seq(256, _ => 0)

  predicate AllMapped(t: ByteTokens, text: seq<Byte>) {
    forall i :: 0 <= i < |text| ==> t[text[i]] != NO_TOKEN
  }

  function Initial(t: ByteTokens, text: seq<Byte>): (r: seq<nat>)
    ensures |r| == |text|
  {
    seq(|text|, i requires 0 <= i < |text| => t[text[i]])
  }

  /** What a piece encodes to: the reference merge of its bytes' tokens, unless a byte has none. */
  function EncodePiece(m: Merges, t: ByteTokens, text: seq<Byte>): Result<seq<nat>, Error> {
    if AllMapped(t, text) then Ok(Encode(m, Initial(t, text))) else Err(NotFound)
  }
}
