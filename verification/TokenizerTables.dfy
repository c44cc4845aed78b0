/** Filling the chained tables from a tokenizer's lists: their lookups are the maps the encoder is proved against. */
module TokenizerTables {
  import opened Results
  import opened ByteText
  import opened PieceEncoding
  import opened ChainedTables
  import opened Vocabulary
  import opened CompiledFile

  lemma IdOfPrefix(v: seq<(seq<Byte>, nat)>, n: nat)
    requires n < |v|
    ensures IdOf(v[..n + 1]) == IdOf(v[..n])[v[n].0 := v[n].1]
  {
    assert v[..n + 1][..n] == v[..n];
  }

  lemma RuleOfPrefix(pairs: seq<Pair>, n: nat)
    requires n < |pairs|
    ensures RuleOf(pairs[..n + 1])
        == RuleOf(pairs[..n])[(pairs[n].left, pairs[n].right) := (pairs[n].rank, pairs[n].merged)]
  {
    assert pairs[..n + 1][..n] == pairs[..n];
  }

  lemma {:induction false} IdOfHas(v: seq<(seq<Byte>, nat)>, text: seq<Byte>)
    ensures text in IdOf(v) <==> HasText(v, text)
  {
    if v != [] {
      var n := |v| - 1;
      IdOfHas(v[..n], text);
      assert forall i :: 0 <= i < n ==> v[..n][i] == v[i];
      assert HasText(v, text) <==> HasText(v[..n], text) || v[n].0 == text;
    }
  }

  lemma RepeatedText(v: seq<(seq<Byte>, nat)>, i: nat)
    requires i < |v| && HasText(v[..i], v[i].0)
    ensures !TextsDistinct(v)
  {
    var k :| 0 <= k < |v[..i]| && v[..i][k].0 == v[i].0;
    assert v[k].0 == v[i].0;
  }

  lemma DistinctOneMore(v: seq<(seq<Byte>, nat)>, i: nat)
    requires i < |v| && TextsDistinct(v[..i]) && !HasText(v[..i], v[i].0)
    ensures TextsDistinct(v[..i + 1])
  {
    var all := v[..i + 1];
    forall a, b | 0 <= a < b < i + 1 ensures all[a].0 != all[b].0 {
      assert v[..i][a] == v[a];
      if b < i {
        assert v[..i][b] == v[b];
      }
    }
  }

  /** The vocabulary table: it can be filled exactly when no text repeats, and then looks ids up. */
  method FillVocabulary(v: seq<(seq<Byte>, nat)>, hash: seq<Byte> -> nat)
    returns (r: Result<ChainedTable<seq<Byte>, nat>, TableError>)
    requires |v| < END - 1
    ensures r.Ok? <==> TextsDistinct(v)
    ensures r.Ok? ==> fresh(r.value) && r.value.Valid() && r.value.Map() == IdOf(v)
    ensures r.Err? ==> r.error == TableError.Duplicate
  {
    var table := new ChainedTable<seq<Byte>, nat>(hash, |v|);
    for i := 0 to |v|
      invariant table.Valid() && |table.entries| == i && table.Map() == IdOf(v[..i])
      invariant |v| > 0 ==> table.buckets != []
      invariant TextsDistinct(v[..i])
    {
      IdOfHas(v[..i], v[i].0);
      IdOfPrefix(v, i);
      var inserted := table.Insert(v[i].0, v[i].1);
      if inserted.Err? {
        RepeatedText(v, i);
        return Err(inserted.error);
      }
      DistinctOneMore(v, i);
    }
    assert v[..|v|] == v;
    return Ok(table);
  }

  lemma RepeatedPair(pairs: seq<Pair>, i: nat)
    requires i < |pairs| && HasPair(pairs[..i], pairs[i].left, pairs[i].right)
    ensures !PairsDistinct(pairs)
  {
    var k :| 0 <= k < |pairs[..i]| && pairs[..i][k].left == pairs[i].left && pairs[..i][k].right == pairs[i].right;
    assert pairs[k].left == pairs[i].left && pairs[k].right == pairs[i].right;
  }

  lemma PairsDistinctOneMore(pairs: seq<Pair>, i: nat)
    requires i < |pairs| && PairsDistinct(pairs[..i]) && !HasPair(pairs[..i], pairs[i].left, pairs[i].right)
    ensures PairsDistinct(pairs[..i + 1])
  {
    var all := pairs[..i + 1];
    forall a, b | 0 <= a < b < i + 1 ensures all[a].left != all[b].left || all[a].right != all[b].right {
      assert pairs[..i][a] == pairs[a];
      if b < i {
        assert pairs[..i][b] == pairs[b];
      }
    }
  }

  /** The merge-rule table: it can be filled exactly when no pair repeats, and then looks rules up. */
  method FillPairs(pairs: seq<Pair>, hash: ((nat, nat)) -> nat)
    returns (r: Result<ChainedTable<(nat, nat), (nat, nat)>, TableError>)
    requires |pairs| < END - 1
    ensures r.Ok? <==> PairsDistinct(pairs)
    ensures r.Ok? ==> fresh(r.value) && r.value.Valid() && r.value.Map() == RuleOf(pairs)
    ensures r.Err? ==> r.error == TableError.Duplicate
  {
    var table := new ChainedTable<(nat, nat), (nat, nat)>(hash, |pairs|);
    for i := 0 to |pairs|
      invariant table.Valid() && |table.entries| == i && table.Map() == RuleOf(pairs[..i])
      invariant |pairs| > 0 ==> table.buckets != []
      invariant PairsDistinct(pairs[..i])
    {
      var p := pairs[i];
      RuleOfHas(pairs[..i], p.left, p.right);
      RuleOfPrefix(pairs, i);
      var inserted := table.Insert((p.left, p.right), (p.rank, p.merged));
      if inserted.Err? {
        RepeatedPair(pairs, i);
        return Err(inserted.error);
      }
      PairsDistinctOneMore(pairs, i);
    }
    assert pairs[..|pairs|] == pairs;
    return Ok(table);
  }

  /** The byte table, filled by looking each byte's symbol up. */
  method FillByteTable(table: ChainedTable<seq<Byte>, nat>, hasUnknown: bool, unknownId: nat) returns (t: ByteTokens)
    requires table.Valid()
    ensures t == ByteTable(table.Map(), hasUnknown, unknownId)
  {
    var row: seq<nat> := [];
    for b := 0 to 256
      invariant |row| == b && row == ByteTable(table.Map(), hasUnknown, unknownId)[..b]
    {
      var found := table.Find(ByteSymbol(b));
      var token := if found.Some? then found.value else if hasUnknown then unknownId else NO_TOKEN;
      row := row + [token];
    }
    t := row;
  }

  /** Where the first space of a merge string is, or its length. */
  method FindSeparator(text: seq<Byte>) returns (i: nat)
    ensures i <= |text| && 32 !in text[..i] && (i < |text| ==> text[i] == 32)
    ensures i == Separator(text)
  {
    i := 0;
    while i < |text| && text[i] != 32
      invariant i <= |text| && 32 !in text[..i] && Separator(text) == i + Separator(text[i..])
    {
      assert text[..i + 1] == text[..i] + [text[i]] && text[i..][1..] == text[i + 1..];
      i := i + 1;
    }
  }

  lemma RuleOfMore(pairs: seq<Pair>, p: Pair)
    ensures RuleOf(pairs + [p]) == RuleOf(pairs)[(p.left, p.right) := (p.rank, p.merged)]
  {
    assert (pairs + [p])[..|pairs|] == pairs;
  }

  /** The rule of one merge string, looked up in the vocabulary table. */
  method ReadMergeString(vocabulary: ChainedTable<seq<Byte>, nat>, text: seq<Byte>, rank: nat)
    returns (p: Option<Pair>)
    requires vocabulary.Valid()
    ensures p == PairOf(vocabulary.Map(), text, rank)
  {
    var i := FindSeparator(text);
    if i == 0 || i >= |text| {
      return None;
    }
    var left := vocabulary.Find(text[..i]);
    var right := vocabulary.Find(text[i + 1..]);
    if left.None? || right.None? {
      return None;
    }
    var merged := vocabulary.Find(text[..i] + text[i + 1..]);
    if merged.None? {
      return None;
    }
    return Some(Pair(left.value, right.value, merged.value, rank));
  }

  /** The merge-rule table of a list of merge strings: the first string that gives a rule for a pair decides it. */
  method BuildMergePairTable(vocabulary: ChainedTable<seq<Byte>, nat>, merges: seq<seq<Byte>>,
                             hash: ((nat, nat)) -> nat)
    returns (table: ChainedTable<(nat, nat), (nat, nat)>)
    requires vocabulary.Valid() && |merges| < END - 1
    ensures fresh(table) && table.Valid() && table.Map() == RuleOf(PairsOf(vocabulary.Map(), merges, |merges|))
  {
    table := new ChainedTable<(nat, nat), (nat, nat)>(hash, |merges|);
    for n := 0 to |merges|
      invariant fresh(table) && table.Valid() && |table.entries| <= n && (|merges| > 0 ==> table.buckets != [])
      invariant table.Map() == RuleOf(PairsOf(vocabulary.Map(), merges, n))
    {
      var p := ReadMergeString(vocabulary, merges[n], n);
      if p.Some? {
        ghost var before := PairsOf(vocabulary.Map(), merges, n);
        RuleOfHas(before, p.value.left, p.value.right);
        RuleOfMore(before, p.value);
        var inserted := table.Insert((p.value.left, p.value.right), (p.value.rank, p.value.merged));
      }
    }
  }
}
