/** The compiled tokenizer file: little-endian integers and length-prefixed texts, written and read back. */
module CompiledFile {
  import opened Results
  import opened ByteText
  import opened Tokenizer
  import opened Vocabulary

  const MAGIC := 0x0031_4B4F_5453_5053
  const VERSION := 1
  const U32 := 0x1_0000_0000

  datatype LoadError = Truncated | BadHeader | Duplicate

  // ---- Integers ------------------------------------------------------------

  /** `n` bytes, least significant first. */
  function WriteInt(x: nat, n: nat): (r: seq<Byte>)
    ensures |r| == n
  {
    if n == 0 then [] else [x % 256] + WriteInt(x / 256, n - 1)
  }

  function IntOf(bytes: seq<Byte>): nat {
    if bytes == [] then 0 else bytes[0] + 256 * IntOf(bytes[1..])
  }

  function Power256(n: nat): (r: nat)
    ensures r > 0
  {
    if n == 0 then 1 else 256 * Power256(n - 1)
  }

  lemma {:induction false} IntsAreRead(x: nat, n: nat)
    requires x < Power256(n)
    ensures IntOf(WriteInt(x, n)) == x
  {
    if n > 0 {
      assert x / 256 < Power256(n - 1);
      IntsAreRead(x / 256, n - 1);
      assert WriteInt(x, n)[1..] == WriteInt(x / 256, n - 1);
    }
  }

  lemma Sizes()
    ensures Power256(4) == U32 && Power256(8) == 0x1_0000_0000_0000_0000
  {
    assert Power256(1) == 256 && Power256(2) == 65536;
    assert Power256(3) == 16777216;
    assert Power256(4) == U32;
    assert Power256(5) == 0x100_0000_0000 && Power256(6) == 0x1_0000_0000_0000;
  }

  /** Bytes are what the number they spell is written as. */
  lemma {:induction false} BytesAreWritten(bytes: seq<Byte>)
    ensures WriteInt(IntOf(bytes), |bytes|) == bytes
  {
    if bytes != [] {
      var x := IntOf(bytes);
      BytesAreWritten(bytes[1..]);
      assert x % 256 == bytes[0] && x / 256 == IntOf(bytes[1..]);
    }
  }

  // ---- Reading -------------------------------------------------------------

  /** A value read from the front, and what is left. */
  datatype Read<T> = Read(value: T, rest: seq<Byte>)

  /** The next `n` bytes. */
  function Take(b: seq<Byte>, n: nat): Result<Read<seq<Byte>>, LoadError> {
    if n <= |b| then Ok(Read(b[..n], b[n..])) else Err(Truncated)
  }

  function ReadInt(b: seq<Byte>, n: nat): Result<Read<nat>, LoadError> {
    match Take(b, n)
    case Ok(t) => Ok(Read(IntOf(t.value), t.rest))
    case Err(e) => Err(e)
  }

  function ReadU32(b: seq<Byte>): Result<Read<nat>, LoadError> { ReadInt(b, 4) }

  lemma TakesWhatWasWritten(a: seq<Byte>, rest: seq<Byte>)
    ensures Take(a + rest, |a|) == Ok(Read(a, rest))
  {
  }

  lemma U32IsRead(x: nat, rest: seq<Byte>)
    requires x < U32
    ensures ReadU32(WriteInt(x, 4) + rest) == Ok(Read(x, rest))
  {
    Sizes();
    IntsAreRead(x, 4);
    TakesWhatWasWritten(WriteInt(x, 4), rest);
  }

  // ---- Texts with an id ----------------------------------------------------

  function WriteEntry(id: nat, text: seq<Byte>): seq<Byte> {
    WriteInt(id, 4) + WriteInt(|text|, 4) + text
  }

  function ReadEntry(b: seq<Byte>): Result<Read<(seq<Byte>, nat)>, LoadError> {
    match ReadU32(b) {
      case Err(e) => Err(e)
      case Ok(id) =>
        match ReadU32(id.rest) {
          case Err(e) => Err(e)
          case Ok(length) =>
            match Take(length.rest, length.value) {
              case Err(e) => Err(e)
              case Ok(text) => Ok(Read((text.value, id.value), text.rest))
            }
        }
    }
  }

  lemma EntryIsRead(id: nat, text: seq<Byte>, rest: seq<Byte>)
    requires id < U32 && |text| < U32
    ensures ReadEntry(WriteEntry(id, text) + rest) == Ok(Read((text, id), rest))
  {
    var a, b := WriteInt(id, 4), WriteInt(|text|, 4);
    assert WriteEntry(id, text) + rest == a + (b + (text + rest));
    U32IsRead(id, b + (text + rest));
    U32IsRead(|text|, text + rest);
    TakesWhatWasWritten(text, rest);
  }

  // ---- The vocabulary ------------------------------------------------------

  function WriteVocabulary(v: seq<(seq<Byte>, nat)>): seq<Byte> {
    if v == [] then [] else WriteEntry(v[0].1, v[0].0) + WriteVocabulary(v[1..])
  }

  predicate HasText(v: seq<(seq<Byte>, nat)>, text: seq<Byte>) {
    exists i :: 0 <= i < |v| && v[i].0 == text
  }

  /** `n` more entries behind those already read; a text may not repeat. */
  function ReadVocabulary(b: seq<Byte>, n: nat, read: seq<(seq<Byte>, nat)>)
    : Result<Read<seq<(seq<Byte>, nat)>>, LoadError>
    decreases n
  {
    if n == 0 then Ok(Read(read, b))
    else
      match ReadEntry(b)
      case Err(e) => Err(e)
      case Ok(entry) =>
        if HasText(read, entry.value.0) then Err(Duplicate) else ReadVocabulary(entry.rest, n - 1, read + [entry.value])
  }

  ghost predicate TextsDistinct(v: seq<(seq<Byte>, nat)>) {
    forall i, j :: 0 <= i < j < |v| ==> v[i].0 != v[j].0
  }

  ghost predicate EntryFits(e: (seq<Byte>, nat)) { e.1 < U32 && |e.0| < U32 }

  ghost predicate VocabularyFits(v: seq<(seq<Byte>, nat)>) {
    TextsDistinct(v) && forall i :: 0 <= i < |v| ==> EntryFits(v[i])
  }

  lemma VocabularyStartsWith(v: seq<(seq<Byte>, nat)>, k: nat, rest: seq<Byte>)
    requires k < |v| && TextsDistinct(v)
    ensures WriteVocabulary(v[k..]) + rest == WriteEntry(v[k].1, v[k].0) + (WriteVocabulary(v[k + 1..]) + rest)
    ensures !HasText(v[..k], v[k].0) && v[..k] + [v[k]] == v[..k + 1]
  {
    assert v[k..][0] == v[k] && v[k..][1..] == v[k + 1..];
    var a, b := WriteEntry(v[k].1, v[k].0), WriteVocabulary(v[k + 1..]);
    assert a + b + rest == a + (b + rest);
  }

  lemma {:induction false} VocabularyIsRead(v: seq<(seq<Byte>, nat)>, k: nat, rest: seq<Byte>, bytes: seq<Byte>,
                                            read: seq<(seq<Byte>, nat)>)
    requires k <= |v| && VocabularyFits(v)
    requires bytes == WriteVocabulary(v[k..]) + rest && read == v[..k]
    ensures ReadVocabulary(bytes, |v| - k, read) == Ok(Read(v, rest))
    decreases |v| - k
  {
    if k == |v| {
      assert v[k..] == [] && v[..k] == v;
      var none: seq<Byte> := [];
      assert none + rest == rest;
    } else {
      var e, tail := v[k], WriteVocabulary(v[k + 1..]);
      assert EntryFits(e);
      VocabularyStartsWith(v, k, rest);
      EntryIsRead(e.1, e.0, tail + rest);
      VocabularyIsRead(v, k + 1, rest, tail + rest, v[..k + 1]);
    }
  }

  // ---- Merge rules ---------------------------------------------------------

  function WritePair(p: Pair): seq<Byte> {
    WriteInt(p.left, 4) + WriteInt(p.right, 4) + WriteInt(p.merged, 4) + WriteInt(p.rank, 4)
  }

  function ReadPair(b: seq<Byte>): Result<Read<Pair>, LoadError> {
    match Take(b, 16)
    case Err(e) => Err(e)
    case Ok(t) =>
      var x := t.value;
      Ok(Read(Pair(IntOf(x[..4]), IntOf(x[4..8]), IntOf(x[8..12]), IntOf(x[12..])), t.rest))
  }

  ghost predicate PairFits(p: Pair) { p.left < U32 && p.right < U32 && p.merged < U32 && p.rank < U32 }

  lemma PairIsRead(p: Pair, rest: seq<Byte>)
    requires PairFits(p)
    ensures ReadPair(WritePair(p) + rest) == Ok(Read(p, rest))
  {
    var x := WritePair(p);
    Sizes();
    TakesWhatWasWritten(x, rest);
    assert x[..4] == WriteInt(p.left, 4) && x[4..8] == WriteInt(p.right, 4);
    assert x[8..12] == WriteInt(p.merged, 4) && x[12..] == WriteInt(p.rank, 4);
    IntsAreRead(p.left, 4);
    IntsAreRead(p.right, 4);
    IntsAreRead(p.merged, 4);
    IntsAreRead(p.rank, 4);
  }

  function WritePairs(pairs: seq<Pair>): seq<Byte> {
    if pairs == [] then [] else WritePair(pairs[0]) + WritePairs(pairs[1..])
  }

  function ReadPairs(b: seq<Byte>, n: nat, read: seq<Pair>): Result<Read<seq<Pair>>, LoadError>
    decreases n
  {
    if n == 0 then Ok(Read(read, b))
    else
      match ReadPair(b)
      case Err(e) => Err(e)
      case Ok(p) =>
        if HasPair(read, p.value.left, p.value.right) then Err(Duplicate)
        else ReadPairs(p.rest, n - 1, read + [p.value])
  }

  ghost predicate PairsDistinct(pairs: seq<Pair>) {
    forall i, j :: 0 <= i < j < |pairs| ==> pairs[i].left != pairs[j].left || pairs[i].right != pairs[j].right
  }

  ghost predicate PairsFit(pairs: seq<Pair>) {
    PairsDistinct(pairs) && forall i :: 0 <= i < |pairs| ==> PairFits(pairs[i])
  }

  lemma PairsStartWith(pairs: seq<Pair>, k: nat, rest: seq<Byte>)
    requires k < |pairs| && PairsDistinct(pairs)
    ensures WritePairs(pairs[k..]) + rest == WritePair(pairs[k]) + (WritePairs(pairs[k + 1..]) + rest)
    ensures !HasPair(pairs[..k], pairs[k].left, pairs[k].right) && pairs[..k] + [pairs[k]] == pairs[..k + 1]
  {
    assert pairs[k..][0] == pairs[k] && pairs[k..][1..] == pairs[k + 1..];
    var a, b := WritePair(pairs[k]), WritePairs(pairs[k + 1..]);
    assert a + b + rest == a + (b + rest);
  }

  lemma {:induction false} PairsAreRead(pairs: seq<Pair>, k: nat, rest: seq<Byte>, bytes: seq<Byte>, read: seq<Pair>)
    requires k <= |pairs| && PairsFit(pairs)
    requires bytes == WritePairs(pairs[k..]) + rest && read == pairs[..k]
    ensures ReadPairs(bytes, |pairs| - k, read) == Ok(Read(pairs, rest))
    decreases |pairs| - k
  {
    if k == |pairs| {
      assert pairs[k..] == [] && pairs[..k] == pairs;
      var none: seq<Byte> := [];
      assert none + rest == rest;
    } else {
      var p, tail := pairs[k], WritePairs(pairs[k + 1..]);
      assert PairFits(p);
      PairsStartWith(pairs, k, rest);
      PairIsRead(p, tail + rest);
      PairsAreRead(pairs, k + 1, rest, tail + rest, pairs[..k + 1]);
    }
  }

  // ---- Special tokens ------------------------------------------------------

  function WriteSpecials(specials: seq<Special>): seq<Byte> {
    if specials == [] then [] else WriteEntry(specials[0].id, specials[0].text) + WriteSpecials(specials[1..])
  }

  function ReadSpecials(b: seq<Byte>, n: nat): Result<Read<seq<Special>>, LoadError>
    decreases n
  {
    if n == 0 then Ok(Read([], b))
    else
      match ReadEntry(b) {
        case Err(e) => Err(e)
        case Ok(entry) =>
          match ReadSpecials(entry.rest, n - 1) {
            case Err(e) => Err(e)
            case Ok(more) => Ok(Read([Special(entry.value.0, entry.value.1)] + more.value, more.rest))
          }
      }
  }

  ghost predicate SpecialFits(s: Special) { s.id < U32 && |s.text| < U32 }

  ghost predicate SpecialsFit(specials: seq<Special>) {
    forall i :: 0 <= i < |specials| ==> SpecialFits(specials[i])
  }

  lemma {:induction false} SpecialsAreRead(specials: seq<Special>, rest: seq<Byte>)
    requires SpecialsFit(specials)
    ensures ReadSpecials(WriteSpecials(specials) + rest, |specials|) == Ok(Read(specials, rest))
  {
    if specials == [] {
      var none: seq<Byte> := [];
      assert none + rest == rest;
    } else {
      var s, tail := specials[0], WriteSpecials(specials[1..]);
      assert SpecialFits(s);
      assert WriteSpecials(specials) + rest == WriteEntry(s.id, s.text) + (tail + rest);
      EntryIsRead(s.id, s.text, tail + rest);
      SpecialsAreRead(specials[1..], rest);
      assert [Special(s.text, s.id)] + specials[1..] == specials;
    }
  }

  // ---- The whole file ------------------------------------------------------

  /** A flag as a number. */
  function Bit(b: bool): (n: nat)
    ensures n <= 1
  {
    if b then 1 else 0
  }

  /** The ten header fields behind magic and version. */
  function Fields(d: Document): seq<nat> {
    [d.kind, Bit(d.addPrefixSpace), Bit(d.byteFallback), Bit(d.hasUnknown), d.unknownId, d.maximumId, Bit(d.useRegex),
     |d.vocabulary|, |d.pairs|, |d.specials|]
  }

  function WriteFields(fields: seq<nat>): seq<Byte> {
    if fields == [] then [] else WriteInt(fields[0], 4) + WriteFields(fields[1..])
  }

  function ReadFields(b: seq<Byte>, n: nat): (r: Result<Read<seq<nat>>, LoadError>)
    ensures r.Ok? ==> |r.value.value| == n
    decreases n
  {
    if n == 0 then Ok(Read([], b))
    else
      match ReadU32(b) {
        case Err(e) => Err(e)
        case Ok(x) =>
          match ReadFields(x.rest, n - 1) {
            case Err(e) => Err(e)
            case Ok(more) => Ok(Read([x.value] + more.value, more.rest))
          }
      }
  }

  lemma {:induction false} FieldsAreRead(fields: seq<nat>, rest: seq<Byte>)
    requires forall i :: 0 <= i < |fields| ==> fields[i] < U32
    ensures ReadFields(WriteFields(fields) + rest, |fields|) == Ok(Read(fields, rest))
  {
    if fields == [] {
      var none: seq<Byte> := [];
      assert none + rest == rest;
    } else {
      var tail := WriteFields(fields[1..]);
      assert WriteFields(fields) + rest == WriteInt(fields[0], 4) + (tail + rest);
      U32IsRead(fields[0], tail + rest);
      FieldsAreRead(fields[1..], rest);
      assert [fields[0]] + fields[1..] == fields;
    }
  }

  datatype Lists = Lists(vocabulary: seq<(seq<Byte>, nat)>, pairs: seq<Pair>, specials: seq<Special>)

  function WriteLists(lists: Lists): seq<Byte> {
    WriteVocabulary(lists.vocabulary) + (WritePairs(lists.pairs) + WriteSpecials(lists.specials))
  }

  function WriteParts(fields: seq<nat>, lists: Lists): seq<Byte> {
    WriteInt(MAGIC, 8) + (WriteInt(VERSION, 4) + (WriteFields(fields) + WriteLists(lists)))
  }

  function Write(d: Document): seq<Byte> {
    WriteParts(Fields(d), Lists(d.vocabulary, d.pairs, d.specials))
  }

  /** Read magic and version; what follows is the body. */
  function ReadHeader(b: seq<Byte>): Result<seq<Byte>, LoadError> {
    match ReadInt(b, 8) {
      case Err(e) => Err(e)
      case Ok(magic) =>
        match ReadU32(magic.rest) {
          case Err(e) => Err(e)
          case Ok(version) =>
            if magic.value != MAGIC || version.value != VERSION then Err(BadHeader) else Ok(version.rest)
        }
    }
  }

  /** Read the three lists, of the lengths the header gives. */
  function ReadLists(b: seq<Byte>, entries: nat, rules: nat, tokens: nat): Result<Lists, LoadError> {
    match ReadVocabulary(b, entries, []) {
      case Err(e) => Err(e)
      case Ok(vocabulary) =>
        match ReadPairs(vocabulary.rest, rules, []) {
          case Err(e) => Err(e)
          case Ok(pairs) =>
            match ReadSpecials(pairs.rest, tokens) {
              case Err(e) => Err(e)
              case Ok(specials) => Ok(Lists(vocabulary.value, pairs.value, specials.value))
            }
        }
    }
  }

  /** Put header and lists together; special tokens are put in match order. */
  function Assemble(x: seq<nat>, lists: Lists): Document
    requires |x| == 10
  {
    Document(x[0], x[1] != 0, x[2] != 0, x[3] != 0, x[4], x[5], x[6] != 0, lists.vocabulary, lists.pairs,
             Sort(lists.specials))
  }

  function ParseBody(body: seq<Byte>): Result<Document, LoadError> {
    match ReadFields(body, 10) {
      case Err(e) => Err(e)
      case Ok(fields) =>
        var x := fields.value;
        match ReadLists(fields.rest, x[7], x[8], x[9]) {
          case Err(e) => Err(e)
          case Ok(lists) => Ok(Assemble(x, lists))
        }
    }
  }

  /** Read a whole file. */
  function Parse(b: seq<Byte>): Result<Document, LoadError> {
    match ReadHeader(b) {
      case Err(e) => Err(e)
      case Ok(body) => ParseBody(body)
    }
  }

  ghost predicate ListsFit(lists: Lists) {
    VocabularyFits(lists.vocabulary) && PairsFit(lists.pairs) && SpecialsFit(lists.specials)
  }

  /** What the file can hold: 32-bit numbers, distinct keys, special tokens in match order. */
  ghost predicate Storable(d: Document) {
    && d.kind < U32 && d.unknownId < U32 && d.maximumId < U32
    && |d.vocabulary| < U32 && |d.pairs| < U32 && |d.specials| < U32
    && ListsFit(Lists(d.vocabulary, d.pairs, d.specials)) && InOrder(d.specials)
  }

  lemma HeaderIsRead(rest: seq<Byte>)
    ensures ReadHeader(WriteInt(MAGIC, 8) + (WriteInt(VERSION, 4) + rest)) == Ok(rest)
  {
    Sizes();
    IntsAreRead(MAGIC, 8);
    TakesWhatWasWritten(WriteInt(MAGIC, 8), WriteInt(VERSION, 4) + rest);
    U32IsRead(VERSION, rest);
  }

  /** A file is taken for one of ours exactly when it starts with our magic and version. */
  lemma HeaderIsOurs(b: seq<Byte>)
    ensures ReadHeader(b).Ok? <==> WriteInt(MAGIC, 8) + WriteInt(VERSION, 4) <= b
  {
    var header := WriteInt(MAGIC, 8) + WriteInt(VERSION, 4);
    if header <= b {
      assert b == WriteInt(MAGIC, 8) + (WriteInt(VERSION, 4) + b[12..]);
      HeaderIsRead(b[12..]);
    }
    if |b| >= 12 {
      BytesAreWritten(b[..8]);
      BytesAreWritten(b[8..][..4]);
      assert b[..12] == b[..8] + b[8..][..4];
    }
  }

  lemma AllEntriesAreRead(v: seq<(seq<Byte>, nat)>, rest: seq<Byte>)
    requires VocabularyFits(v)
    ensures ReadVocabulary(WriteVocabulary(v) + rest, |v|, []) == Ok(Read(v, rest))
  {
    assert v[0..] == v && v[..0] == [];
    VocabularyIsRead(v, 0, rest, WriteVocabulary(v) + rest, []);
  }

  lemma AllPairsAreRead(pairs: seq<Pair>, rest: seq<Byte>)
    requires PairsFit(pairs)
    ensures ReadPairs(WritePairs(pairs) + rest, |pairs|, []) == Ok(Read(pairs, rest))
  {
    assert pairs[0..] == pairs && pairs[..0] == [];
    PairsAreRead(pairs, 0, rest, WritePairs(pairs) + rest, []);
  }

  lemma ListsAreRead(lists: Lists)
    requires ListsFit(lists)
    ensures ReadLists(WriteLists(lists), |lists.vocabulary|, |lists.pairs|, |lists.specials|) == Ok(lists)
  {
    AllEntriesAreRead(lists.vocabulary, WritePairs(lists.pairs) + WriteSpecials(lists.specials));
    AllPairsAreRead(lists.pairs, WriteSpecials(lists.specials));
    var none: seq<Byte> := [];
    assert WriteSpecials(lists.specials) + none == WriteSpecials(lists.specials);
    SpecialsAreRead(lists.specials, none);
  }

  lemma HeaderAssembles(d: Document)
    requires InOrder(d.specials)
    ensures Assemble(Fields(d), Lists(d.vocabulary, d.pairs, d.specials)) == d
  {
    SortedStaysPut(d.specials);
  }

  lemma PartsAreRead(fields: seq<nat>, lists: Lists)
    requires |fields| == 10 && (forall i :: 0 <= i < |fields| ==> fields[i] < U32) && ListsFit(lists)
    requires fields[7] == |lists.vocabulary| && fields[8] == |lists.pairs| && fields[9] == |lists.specials|
    ensures Parse(WriteParts(fields, lists)) == Ok(Assemble(fields, lists))
  {
    HeaderIsRead(WriteFields(fields) + WriteLists(lists));
    FieldsAreRead(fields, WriteLists(lists));
    ListsAreRead(lists);
  }

  // ---- What reading establishes --------------------------------------------

  lemma {:induction false} IntFits(bytes: seq<Byte>)
    ensures IntOf(bytes) < Power256(|bytes|)
  {
    if bytes != [] {
      IntFits(bytes[1..]);
    }
  }

  lemma U32Fits(b: seq<Byte>)
    requires ReadU32(b).Ok?
    ensures ReadU32(b).value.value < U32
  {
    Sizes();
    IntFits(b[..4]);
  }

  lemma EntryReadFits(b: seq<Byte>)
    requires ReadEntry(b).Ok?
    ensures EntryFits(ReadEntry(b).value.value)
  {
    U32Fits(b);
    U32Fits(ReadU32(b).value.rest);
  }

  lemma PairReadFits(b: seq<Byte>)
    requires ReadPair(b).Ok?
    ensures PairFits(ReadPair(b).value.value)
  {
    var x := b[..16];
    Sizes();
    IntFits(x[..4]);
    IntFits(x[4..8]);
    IntFits(x[8..12]);
    IntFits(x[12..]);
  }

  lemma {:induction false} VocabularyReadFits(b: seq<Byte>, n: nat, read: seq<(seq<Byte>, nat)>)
    requires VocabularyFits(read) && ReadVocabulary(b, n, read).Ok?
    ensures var v := ReadVocabulary(b, n, read).value.value; VocabularyFits(v) && |v| == |read| + n
    decreases n
  {
    if n > 0 {
      var entry := ReadEntry(b).value;
      EntryReadFits(b);
      VocabularyReadFits(entry.rest, n - 1, read + [entry.value]);
    }
  }

  lemma {:induction false} PairsReadFit(b: seq<Byte>, n: nat, read: seq<Pair>)
    requires PairsFit(read) && ReadPairs(b, n, read).Ok?
    ensures var pairs := ReadPairs(b, n, read).value.value; PairsFit(pairs) && |pairs| == |read| + n
    decreases n
  {
    if n > 0 {
      var p := ReadPair(b).value;
      PairReadFits(b);
      PairsReadFit(p.rest, n - 1, read + [p.value]);
    }
  }

  lemma {:induction false} SpecialsReadFit(b: seq<Byte>, n: nat)
    requires ReadSpecials(b, n).Ok?
    ensures var specials := ReadSpecials(b, n).value.value; SpecialsFit(specials) && |specials| == n
    decreases n
  {
    if n > 0 {
      EntryReadFits(b);
      SpecialsReadFit(ReadEntry(b).value.rest, n - 1);
    }
  }

  lemma {:induction false} FieldsReadFit(b: seq<Byte>, n: nat)
    requires ReadFields(b, n).Ok?
    ensures forall x :: x in ReadFields(b, n).value.value ==> x < U32
    decreases n
  {
    if n > 0 {
      U32Fits(b);
      FieldsReadFit(ReadU32(b).value.rest, n - 1);
    }
  }

  lemma SortKeepsFitting(specials: seq<Special>)
    requires SpecialsFit(specials)
    ensures SpecialsFit(Sort(specials)) && |Sort(specials)| == |specials|
  {
    var sorted := Sort(specials);
    assert |multiset(sorted)| == |multiset(specials)|;
    forall i | 0 <= i < |sorted| ensures SpecialFits(sorted[i]) {
      assert sorted[i] in multiset(sorted);
      assert sorted[i] in specials;
    }
  }

  lemma ListsReadFit(b: seq<Byte>, entries: nat, rules: nat, tokens: nat)
    requires ReadLists(b, entries, rules, tokens).Ok?
    ensures var lists := ReadLists(b, entries, rules, tokens).value;
      ListsFit(lists) && |lists.vocabulary| == entries && |lists.pairs| == rules && |lists.specials| == tokens
  {
    var vocabulary := ReadVocabulary(b, entries, []).value;
    var pairs := ReadPairs(vocabulary.rest, rules, []).value;
    VocabularyReadFits(b, entries, []);
    PairsReadFit(vocabulary.rest, rules, []);
    SpecialsReadFit(pairs.rest, tokens);
  }

  lemma AssembledIsStorable(x: seq<nat>, lists: Lists)
    requires |x| == 10 && (forall i :: 0 <= i < 10 ==> x[i] < U32) && ListsFit(lists)
    requires x[7] == |lists.vocabulary| && x[8] == |lists.pairs| && x[9] == |lists.specials|
    ensures Storable(Assemble(x, lists))
  {
    SortKeepsFitting(lists.specials);
    SortSorts(lists.specials);
  }

  lemma FieldsAreStorable(fields: Read<seq<nat>>)
    requires |fields.value| == 10 && forall x :: x in fields.value ==> x < U32
    requires var x := fields.value; ReadLists(fields.rest, x[7], x[8], x[9]).Ok?
    ensures var x := fields.value; Storable(Assemble(x, ReadLists(fields.rest, x[7], x[8], x[9]).value))
  {
    var x := fields.value;
    ListsReadFit(fields.rest, x[7], x[8], x[9]);
    assert forall i :: 0 <= i < 10 ==> x[i] in x;
    AssembledIsStorable(x, ReadLists(fields.rest, x[7], x[8], x[9]).value);
  }

  lemma BodyIsStorable(body: seq<Byte>)
    requires ParseBody(body).Ok?
    ensures Storable(ParseBody(body).value)
  {
    FieldsReadFit(body, 10);
    FieldsAreStorable(ReadFields(body, 10).value);
  }

  /** Whatever a file holds, a tokenizer read from it can be stored. */
  lemma ParsedIsStorable(b: seq<Byte>)
    requires Parse(b).Ok?
    ensures Storable(Parse(b).value)
  {
    BodyIsStorable(ReadHeader(b).value);
  }

  lemma {:induction false} PairsOfFit(ids: map<seq<Byte>, nat>, merges: seq<seq<Byte>>, n: nat)
    requires n <= |merges| <= U32 && forall text :: text in ids ==> ids[text] < U32
    ensures PairsFit(PairsOf(ids, merges, n)) && |PairsOf(ids, merges, n)| <= n
  {
    if n > 0 {
      PairsOfFit(ids, merges, n - 1);
    }
  }

  lemma {:induction false} IdsFit(v: seq<(seq<Byte>, nat)>, text: seq<Byte>)
    requires VocabularyFits(v) && text in IdOf(v)
    ensures IdOf(v)[text] < U32
  {
    var n := |v| - 1;
    assert EntryFits(v[n]);
    if text != v[n].0 {
      IdsFit(v[..n], text);
    }
  }

  /** A tokenizer built from a vocabulary, merge strings and special tokens can be stored: its rules fit and differ. */
  lemma LoadedIsStorable(d: Document, merges: seq<seq<Byte>>, specials: seq<Special>)
    requires d.kind < U32 && d.unknownId < U32 && d.maximumId < U32
    requires |d.vocabulary| < U32 && VocabularyFits(d.vocabulary) && |specials| < U32 && SpecialsFit(specials)
    requires |merges| < U32 && d.pairs == PairsOf(IdOf(d.vocabulary), merges, |merges|) && d.specials == Sort(specials)
    ensures Storable(d)
  {
    forall text | text in IdOf(d.vocabulary) ensures IdOf(d.vocabulary)[text] < U32 {
      IdsFit(d.vocabulary, text);
    }
    PairsOfFit(IdOf(d.vocabulary), merges, |merges|);
    SortKeepsFitting(specials);
    SortSorts(specials);
  }

  /** Reading a written file gives the same document back exactly when the document is storable. */
  lemma FilesAreRead(d: Document)
    ensures Parse(Write(d)) == Ok(d) <==> Storable(d)
  {
    if Storable(d) {
      PartsAreRead(Fields(d), Lists(d.vocabulary, d.pairs, d.specials));
      HeaderAssembles(d);
    } else if Parse(Write(d)) == Ok(d) {
      ParsedIsStorable(Write(d));
    }
  }

  /** A file that does not start with our magic and version is refused, whatever follows. */
  lemma ForeignFileIsRefused(b: seq<Byte>)
    requires !(WriteInt(MAGIC, 8) + WriteInt(VERSION, 4) <= b)
    ensures Parse(b).Err?
  {
    HeaderIsOurs(b);
  }

  /** Storing what was read, and reading it again, changes nothing. */
  lemma ReadingIsStable(b: seq<Byte>)
    requires Parse(b).Ok?
    ensures Parse(Write(Parse(b).value)) == Parse(b)
  {
    ParsedIsStorable(b);
    FilesAreRead(Parse(b).value);
  }
}
