/** From vocabulary, merge and special-token lists to the lookups that encoding and decoding use. */
module Vocabulary {
  import opened Results
  import opened ByteText
  import opened NaiveBpe
  import opened PieceEncoding
  import opened PieceCache
  import opened Tokenizer
  import opened Decoder

  /** One merge rule over token ids. */
  datatype Pair = Pair(left: nat, right: nat, merged: nat, rank: nat)

  /** What a tokenizer stores. */
  datatype Document = Document(
    kind: nat,
    addPrefixSpace: bool,
    byteFallback: bool,
    hasUnknown: bool,
    unknownId: nat,
    maximumId: nat,
    useRegex: bool,
    vocabulary: seq<(seq<Byte>, nat)>,
    pairs: seq<Pair>,
    specials: seq<Special>)

  // ---- Lookups -------------------------------------------------------------

  /** The id of each text; texts are distinct. */
  function IdOf(vocabulary: seq<(seq<Byte>, nat)>): map<seq<Byte>, nat> {
    if vocabulary == [] then map[]
    else
      var last := vocabulary[|vocabulary| - 1];
      IdOf(vocabulary[..|vocabulary| - 1])[last.0 := last.1]
  }

  /** The text of each id up to `maximum`; the last entry of an id wins. */
  function TextOf(vocabulary: seq<(seq<Byte>, nat)>, maximum: nat): map<nat, seq<Byte>> {
    if vocabulary == [] then map[]
    else
      var last, rest := vocabulary[|vocabulary| - 1], TextOf(vocabulary[..|vocabulary| - 1], maximum);
      if last.1 <= maximum then rest[last.1 := last.0] else rest
  }

  /** The rule of each pair; pairs are distinct. */
  function RuleOf(pairs: seq<Pair>): Merges {
    if pairs == [] then map[]
    else
      var last := pairs[|pairs| - 1];
      RuleOf(pairs[..|pairs| - 1])[(last.left, last.right) := (last.rank, last.merged)]
  }

  function ByteToken(ids: map<seq<Byte>, nat>, hasUnknown: bool, unknownId: nat, b: Byte): nat {
    if ByteSymbol(b) in ids then ids[ByteSymbol(b)] else if hasUnknown then unknownId else NO_TOKEN
  }

  /** The token of each byte: its symbol's id, or the unknown token. */
  function ByteTable(ids: map<seq<Byte>, nat>, hasUnknown: bool, unknownId: nat): ByteTokens {
    seq(256, b requires 0 <= b < 256 => ByteToken(ids, hasUnknown, unknownId, b))
  }

  /** The tokenizer a document describes. */
  function Loaded(d: Document, hash: PieceHash): Model {
    Model(RuleOf(d.pairs), ByteTable(IdOf(d.vocabulary), d.hasUnknown, d.unknownId), TextOf(d.vocabulary, d.maximumId),
          d.maximumId, d.specials, d.addPrefixSpace, d.useRegex, hash)
  }

  // ---- Merge rules from merge strings --------------------------------------

  /** Where the first space is, or the length. */
  function Separator(text: seq<Byte>): (i: nat)
    ensures i <= |text|
  {
    if text == [] || text[0] == 32 then 0 else 1 + Separator(text[1..])
  }

  /** The rule a merge string `left right` gives, when all three texts are in the vocabulary. */
  function PairOf(ids: map<seq<Byte>, nat>, text: seq<Byte>, rank: nat): Option<Pair> {
    var i := Separator(text);
    if i == 0 || i >= |text| then None
    else
      var left, right := text[..i], text[i + 1..];
      if left in ids && right in ids && left + right in ids
      then Some(Pair(ids[left], ids[right], ids[left + right], rank))
      else None
  }

  predicate HasPair(pairs: seq<Pair>, left: nat, right: nat) {
    exists i :: 0 <= i < |pairs| && pairs[i].left == left && pairs[i].right == right
  }

  /** The rules of the first `n` merge strings; the first rule of a pair wins. */
  function PairsOf(ids: map<seq<Byte>, nat>, merges: seq<seq<Byte>>, n: nat): seq<Pair>
    requires n <= |merges|
  {
    if n == 0 then []
    else
      var before, p := PairsOf(ids, merges, n - 1), PairOf(ids, merges[n - 1], n - 1);
      if p.Some? && !HasPair(before, p.value.left, p.value.right) then before + [p.value] else before
  }

  // ---- What a merge string says --------------------------------------------

  /** A merge string: a left text without a space, a space, and a right text. */
  ghost predicate IsSplit(text: seq<Byte>, left: seq<Byte>, right: seq<Byte>) {
    text == left + [32] + right && left != [] && 32 !in left
  }

  /** The merge string gives a rule for these two tokens: its parts are their texts, and the whole is a token's too. */
  ghost predicate Gives(ids: map<seq<Byte>, nat>, text: seq<Byte>, left: nat, right: nat) {
    exists l: seq<Byte>, r: seq<Byte> ::
      IsSplit(text, l, r) && l in ids && r in ids && l + r in ids && ids[l] == left && ids[r] == right
  }

  /** The merge string says exactly what rule `p` does. */
  ghost predicate Says(ids: map<seq<Byte>, nat>, text: seq<Byte>, p: Pair) {
    exists l: seq<Byte>, r: seq<Byte> ::
      && IsSplit(text, l, r) && l in ids && r in ids && l + r in ids
      && ids[l] == p.left && ids[r] == p.right && ids[l + r] == p.merged
  }

  lemma {:induction false} SeparatorIsFirst(text: seq<Byte>)
    ensures 32 !in text[..Separator(text)]
    ensures Separator(text) < |text| ==> text[Separator(text)] == 32
  {
    if text != [] && text[0] != 32 {
      SeparatorIsFirst(text[1..]);
      assert text[..Separator(text)] == [text[0]] + text[1..][..Separator(text[1..])];
    }
  }

  lemma SplitsAt(text: seq<Byte>, k: nat)
    requires 0 < k < |text| && text[k] == 32 && 32 !in text[..k]
    ensures IsSplit(text, text[..k], text[k + 1..])
  {
    assert text == text[..k] + [32] + text[k + 1..];
  }

  lemma SplitsAtSeparator(text: seq<Byte>)
    requires 0 < Separator(text) < |text|
    ensures IsSplit(text, text[..Separator(text)], text[Separator(text) + 1..])
  {
    SeparatorIsFirst(text);
    SplitsAt(text, Separator(text));
  }

  lemma {:induction false} SeparatorSkips(left: seq<Byte>, rest: seq<Byte>)
    requires 32 !in left && rest != [] && rest[0] == 32
    ensures Separator(left + rest) == |left|
  {
    if left == [] {
      assert left + rest == rest;
    } else {
      SeparatorSkips(left[1..], rest);
      assert (left + rest)[1..] == left[1..] + rest;
    }
  }

  /** A merge string splits in one way only, at its first space. */
  lemma {:induction false} SplitIsUnique(text: seq<Byte>, left: seq<Byte>, right: seq<Byte>)
    requires IsSplit(text, left, right)
    ensures 0 < Separator(text) == |left| < |text|
    ensures left == text[..|left|] && right == text[|left| + 1..]
  {
    SeparatorSkips(left, [32] + right);
    assert text == left + ([32] + right);
  }

  /** The rule of a merge string is the one it gives. */
  lemma PairIsGiven(ids: map<seq<Byte>, nat>, text: seq<Byte>, rank: nat, left: nat, right: nat)
    ensures var p := PairOf(ids, text, rank);
      && (p.Some? && p.value.left == left && p.value.right == right <==> Gives(ids, text, left, right))
      && (p.Some? ==> p.value.rank == rank && Says(ids, text, p.value))
  {
    var i := Separator(text);
    if 0 < i < |text| {
      SplitsAtSeparator(text);
    }
    if Gives(ids, text, left, right) {
      var l: seq<Byte>, r: seq<Byte> :|
        IsSplit(text, l, r) && l in ids && r in ids && l + r in ids && ids[l] == left && ids[r] == right;
      SplitIsUnique(text, l, r);
    }
  }

  lemma HasOneMore(pairs: seq<Pair>, p: Pair, left: nat, right: nat)
    ensures HasPair(pairs + [p], left, right) <==>
      HasPair(pairs, left, right) || (p.left == left && p.right == right)
  {
    var more := pairs + [p];
    if HasPair(pairs, left, right) {
      var i :| 0 <= i < |pairs| && pairs[i].left == left && pairs[i].right == right;
      assert more[i] == pairs[i];
    }
    assert more[|pairs|] == p;
  }

  /** Two tokens have a rule exactly when some merge string gives one. */
  lemma {:induction false} RuleIffGiven(ids: map<seq<Byte>, nat>, merges: seq<seq<Byte>>, n: nat, left: nat, right: nat)
    requires n <= |merges|
    ensures HasPair(PairsOf(ids, merges, n), left, right) <==>
      exists k :: 0 <= k < n && Gives(ids, merges[k], left, right)
  {
    if n > 0 {
      RuleIffGiven(ids, merges, n - 1, left, right);
      PairIsGiven(ids, merges[n - 1], n - 1, left, right);
      var before, p := PairsOf(ids, merges, n - 1), PairOf(ids, merges[n - 1], n - 1);
      if p.Some? {
        HasOneMore(before, p.value, left, right);
      }
    }
  }

  /** A rule says what the merge string at its rank says, and no earlier merge string gives a rule for its tokens. */
  lemma {:induction false} RankIsFirst(ids: map<seq<Byte>, nat>, merges: seq<seq<Byte>>, n: nat, p: Pair)
    requires n <= |merges| && p in PairsOf(ids, merges, n)
    ensures p.rank < n && Says(ids, merges[p.rank], p)
    ensures forall k :: 0 <= k < p.rank ==> !Gives(ids, merges[k], p.left, p.right)
  {
    var before, last := PairsOf(ids, merges, n - 1), PairOf(ids, merges[n - 1], n - 1);
    if p in before {
      RankIsFirst(ids, merges, n - 1, p);
    } else {
      PairIsGiven(ids, merges[n - 1], n - 1, p.left, p.right);
      RuleIffGiven(ids, merges, n - 1, p.left, p.right);
    }
  }

  // ---- Which pair is merged first ------------------------------------------

  lemma {:induction false} RuleOfHas(pairs: seq<Pair>, left: nat, right: nat)
    ensures (left, right) in RuleOf(pairs) <==> HasPair(pairs, left, right)
  {
    if pairs != [] {
      var n := |pairs| - 1;
      RuleOfHas(pairs[..n], left, right);
      assert pairs == pairs[..n] + [pairs[n]];
      HasOneMore(pairs[..n], pairs[n], left, right);
    }
  }

  lemma {:induction false} RulesComeFromPairs(pairs: seq<Pair>, pair: (nat, nat))
    requires pair in RuleOf(pairs)
    ensures Pair(pair.0, pair.1, RuleOf(pairs)[pair].1, RuleOf(pairs)[pair].0) in pairs
  {
    var n := |pairs| - 1;
    var last := pairs[n];
    if pair != (last.left, last.right) {
      RulesComeFromPairs(pairs[..n], pair);
    }
  }

  /** The rank of a pair is the place of the first merge string that gives a rule for it. */
  lemma RankOfRule(ids: map<seq<Byte>, nat>, merges: seq<seq<Byte>>, left: nat, right: nat, k: nat)
    ensures var rules := RuleOf(PairsOf(ids, merges, |merges|));
      (left, right) in rules && rules[(left, right)].0 == k <==>
        && k < |merges| && Gives(ids, merges[k], left, right)
        && forall j :: 0 <= j < k ==> !Gives(ids, merges[j], left, right)
  {
    var pairs := PairsOf(ids, merges, |merges|);
    RuleOfHas(pairs, left, right);
    RuleIffGiven(ids, merges, |merges|, left, right);
    if (left, right) in RuleOf(pairs) {
      var rule := RuleOf(pairs)[(left, right)];
      RulesComeFromPairs(pairs, (left, right));
      RankIsFirst(ids, merges, |merges|, Pair(left, right, rule.1, rule.0));
      assert Gives(ids, merges[rule.0], left, right);
    }
  }

  /**
   * Merging follows the list of merge strings: the pair merged next is one whose merge string comes first of all
   * merge strings that give a rule for adjacent tokens, and of those it is the leftmost.
   */
  lemma FirstMergeStringWins(ids: map<seq<Byte>, nat>, merges: seq<seq<Byte>>, s: seq<nat>, i: nat, j: nat, k: nat)
    requires IsBest(RuleOf(PairsOf(ids, merges, |merges|)), s, i)
    ensures var first := RankAt(RuleOf(PairsOf(ids, merges, |merges|)), s, i);
      && first < |merges| && Gives(ids, merges[first], s[i], s[i + 1])
      && (j + 1 < |s| && k < |merges| && Gives(ids, merges[k], s[j], s[j + 1]) ==> first < k || (first == k && i <= j))
  {
    var rules := RuleOf(PairsOf(ids, merges, |merges|));
    RankOfRule(ids, merges, s[i], s[i + 1], RankAt(rules, s, i));
    if j + 1 < |s| && k < |merges| && Gives(ids, merges[k], s[j], s[j + 1]) {
      RuleOfHas(PairsOf(ids, merges, |merges|), s[j], s[j + 1]);
      RuleIffGiven(ids, merges, |merges|, s[j], s[j + 1]);
      assert CanMerge(rules, s, j);
      RankOfRule(ids, merges, s[j], s[j + 1], RankAt(rules, s, j));
      assert RankAt(rules, s, j) <= k;
    }
  }

  // ---- Which documents decode what they encode -----------------------------

  /** Texts and ids determine each other. */
  ghost predicate OneTextPerId(vocabulary: seq<(seq<Byte>, nat)>) {
    forall i, j :: 0 <= i < j < |vocabulary| ==>
      vocabulary[i].0 != vocabulary[j].0 && vocabulary[i].1 != vocabulary[j].1
  }

  lemma {:induction false} IdsAreInverse(vocabulary: seq<(seq<Byte>, nat)>, maximum: nat, text: seq<Byte>)
    requires OneTextPerId(vocabulary) && text in IdOf(vocabulary)
    requires forall i :: 0 <= i < |vocabulary| ==> vocabulary[i].1 <= maximum
    ensures (text, IdOf(vocabulary)[text]) in vocabulary
    ensures IdOf(vocabulary)[text] in TextOf(vocabulary, maximum)
    ensures TextOf(vocabulary, maximum)[IdOf(vocabulary)[text]] == text
  {
    var n := |vocabulary| - 1;
    var last, rest := vocabulary[n], vocabulary[..n];
    if text != last.0 {
      assert forall i :: 0 <= i < |rest| ==> rest[i] == vocabulary[i];
      IdsAreInverse(rest, maximum, text);
      var k :| 0 <= k < |rest| && rest[k] == (text, IdOf(rest)[text]);
      assert vocabulary[k].1 != last.1;
    }
  }

  lemma {:induction false} TextsAreBounded(vocabulary: seq<(seq<Byte>, nat)>, maximum: nat, id: nat)
    requires id in TextOf(vocabulary, maximum)
    ensures id <= maximum
  {
    var n := |vocabulary| - 1;
    if vocabulary[n].1 > maximum || id != vocabulary[n].1 {
      TextsAreBounded(vocabulary[..n], maximum, id);
    }
  }

  lemma RuleIsSpelled(d: Document, merges: seq<seq<Byte>>, hash: PieceHash, pair: (nat, nat))
    requires OneTextPerId(d.vocabulary) && (forall i :: 0 <= i < |d.vocabulary| ==> d.vocabulary[i].1 <= d.maximumId)
    requires d.pairs == PairsOf(IdOf(d.vocabulary), merges, |merges|) && pair in RuleOf(d.pairs)
    ensures MergeIsSpelled(Loaded(d, hash), pair)
  {
    var ids := IdOf(d.vocabulary);
    RulesComeFromPairs(d.pairs, pair);
    var p := Pair(pair.0, pair.1, RuleOf(d.pairs)[pair].1, RuleOf(d.pairs)[pair].0);
    RankIsFirst(ids, merges, |merges|, p);
    var left: seq<Byte>, right: seq<Byte> :|
      && IsSplit(merges[p.rank], left, right) && left in ids && right in ids && left + right in ids
      && ids[left] == p.left && ids[right] == p.right && ids[left + right] == p.merged;
    IdsAreInverse(d.vocabulary, d.maximumId, left);
    IdsAreInverse(d.vocabulary, d.maximumId, right);
    IdsAreInverse(d.vocabulary, d.maximumId, left + right);
  }

  /**
   * A vocabulary with one text per id and all byte symbols present, with rules from merge strings, gives a
   * tokenizer that decodes what it encodes.
   */
  lemma LoadedIsInvertible(d: Document, merges: seq<seq<Byte>>, hash: PieceHash)
    requires OneTextPerId(d.vocabulary)
    requires (forall i :: 0 <= i < |d.vocabulary| ==> d.vocabulary[i].1 <= d.maximumId < NO_TOKEN)
    requires forall b: Byte :: ByteSymbol(b) in IdOf(d.vocabulary)
    requires d.pairs == PairsOf(IdOf(d.vocabulary), merges, |merges|)
    ensures Invertible(Loaded(d, hash))
  {
    var t, ids := Loaded(d, hash), IdOf(d.vocabulary);
    forall b: Byte ensures ByteIsSpelled(t, b) {
      var symbol := ByteSymbol(b);
      IdsAreInverse(d.vocabulary, d.maximumId, symbol);
      assert (symbol, ids[symbol]) in d.vocabulary;
      assert t.byteTokens[b] == ids[symbol];
    }
    forall pair | pair in t.merges ensures MergeIsSpelled(t, pair) {
      RuleIsSpelled(d, merges, hash, pair);
    }
    forall id | id in t.texts ensures id <= t.maximumId {
      TextsAreBounded(d.vocabulary, d.maximumId, id);
    }
  }

  // ---- The order of special tokens -----------------------------------------

  /** Put a special token behind those it does not come strictly before. */
  function Insert(specials: seq<Special>, s: Special): (r: seq<Special>)
    ensures multiset(r) == multiset(specials) + multiset{s}
  {
    if specials == [] then [s]
    else
      var last := specials[|specials| - 1];
      assert specials == specials[..|specials| - 1] + [last];
      if Before(last, s) then specials + [s] else Insert(specials[..|specials| - 1], s) + [last]
  }

  /** The stable sort. */
  function Sort(specials: seq<Special>): (r: seq<Special>)
    ensures multiset(r) == multiset(specials)
  {
    if specials == [] then []
    else
      var n := |specials| - 1;
      assert specials == specials[..n] + [specials[n]];
      Insert(Sort(specials[..n]), specials[n])
  }

  lemma {:induction false} InsertAddsOne(specials: seq<Special>, s: Special, x: Special)
    requires x in Insert(specials, s)
    ensures x == s || x in specials
  {
    if specials != [] {
      var n := |specials| - 1;
      if !Before(specials[n], s) && x != specials[n] {
        InsertAddsOne(specials[..n], s, x);
      }
    }
  }

  lemma AppendKeepsOrder(specials: seq<Special>, s: Special)
    requires InOrder(specials) && forall x :: x in specials ==> Before(x, s)
    ensures InOrder(specials + [s])
  {
  }

  lemma {:induction false} InsertKeepsOrder(specials: seq<Special>, s: Special)
    requires InOrder(specials)
    ensures InOrder(Insert(specials, s))
  {
    if specials != [] {
      var n := |specials| - 1;
      var last, rest := specials[n], specials[..n];
      forall x | x in rest ensures Before(x, last) {
      }
      if Before(last, s) {
        AppendKeepsOrder(specials, s);
      } else {
        InsertKeepsOrder(rest, s);
        forall x | x in Insert(rest, s) ensures Before(x, last) {
          InsertAddsOne(rest, s, x);
        }
        AppendKeepsOrder(Insert(rest, s), last);
      }
    }
  }

  lemma {:induction false} SortSorts(specials: seq<Special>)
    ensures InOrder(Sort(specials))
  {
    if specials != [] {
      SortSorts(specials[..|specials| - 1]);
      InsertKeepsOrder(Sort(specials[..|specials| - 1]), specials[|specials| - 1]);
    }
  }

  lemma InsertAtEnd(specials: seq<Special>, s: Special)
    requires specials == [] || Before(specials[|specials| - 1], s)
    ensures Insert(specials, s) == specials + [s]
  {
  }

  /** Sorting what is sorted changes nothing. */
  lemma {:induction false} SortedStaysPut(specials: seq<Special>)
    requires InOrder(specials)
    ensures Sort(specials) == specials
  {
    if specials != [] {
      var n := |specials| - 1;
      var rest := specials[..n];
      SortedStaysPut(rest);
      assert n > 0 ==> Before(specials[n - 1], specials[n]);
      InsertAtEnd(rest, specials[n]);
      assert rest + [specials[n]] == specials;
    }
  }
}
