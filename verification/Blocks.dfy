/** Tokens in blocks of a fixed size: where blocks end, how many are needed, and which one holds a position. */
module Blocks {

  /** Tokens covered by the first `blocks` blocks. */
  function EndToken(blocks: nat, blockTokens: nat): nat {
    if blocks == 0 then 0 else EndToken(blocks - 1, blockTokens) + blockTokens
  }

  /** How many blocks hold `tokens` tokens: the least number that covers them. */
  function BlockCount(tokens: nat, blockTokens: nat): (n: nat)
    ensures tokens == 0 || blockTokens == 0 ==> n == 0
    ensures tokens > 0 && blockTokens > 0 ==> n > 0 && EndToken(n - 1, blockTokens) < tokens <= EndToken(n, blockTokens)
  {
    if tokens == 0 || blockTokens == 0 then 0
    else if tokens <= blockTokens then assert EndToken(0, blockTokens) == 0; 1
    else 1 + BlockCount(tokens - blockTokens, blockTokens)
  }

  /** The block a token position falls into. */
  function BlockOf(position: nat, blockTokens: nat): (b: nat)
    requires blockTokens > 0
    ensures EndToken(b, blockTokens) <= position < EndToken(b + 1, blockTokens)
  {
    if position < blockTokens then assert EndToken(0, blockTokens) == 0; 0
    else 1 + BlockOf(position - blockTokens, blockTokens)
  }

  lemma {:induction false} EndTokenIncreases(a: nat, b: nat, blockTokens: nat)
    requires a <= b
    ensures EndToken(a, blockTokens) <= EndToken(b, blockTokens)
  {
    if a < b {
      EndTokenIncreases(a, b - 1, blockTokens);
    }
  }

  /** A position inside the context falls into one of the context's blocks. */
  lemma PositionIsCovered(position: nat, tokens: nat, blockTokens: nat)
    requires position < tokens && blockTokens > 0
    ensures BlockOf(position, blockTokens) < BlockCount(tokens, blockTokens)
  {
    var b, n := BlockOf(position, blockTokens), BlockCount(tokens, blockTokens);
    if b >= n {
      EndTokenIncreases(n, b, blockTokens);
      assert false;
    }
  }

  lemma {:induction false} BlockOfIncreases(a: nat, b: nat, blockTokens: nat)
    requires blockTokens > 0 && a <= b
    ensures BlockOf(a, blockTokens) <= BlockOf(b, blockTokens)
  {
    if BlockOf(b, blockTokens) < BlockOf(a, blockTokens) {
      EndTokenIncreases(BlockOf(b, blockTokens) + 1, BlockOf(a, blockTokens), blockTokens);
      assert false;
    }
  }

  /** The first token of a block is in that block. */
  lemma {:induction false} BlockStartsAt(block: nat, blockTokens: nat)
    requires blockTokens > 0
    ensures BlockOf(EndToken(block, blockTokens), blockTokens) == block
  {
    var b := BlockOf(EndToken(block, blockTokens), blockTokens);
    if b < block {
      EndTokenIncreases(b + 1, block, blockTokens);
    } else if b > block {
      EndTokenIncreases(block + 1, b, blockTokens);
    }
  }
}
