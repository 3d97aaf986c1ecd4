/**
 * Tokenizer.fixNegativeOperators: the lexer reads "5 -3" as the numbers 5 and
 * -3; the repair pass turns every number followed by a negative number into
 * number, "-", positive number. Lexing itself (StreamTokenizer) is not part of
 * this model: the pass starts from the lexed token list.
 */
module Tokenizer {
  import opened Seqs
  import opened NumberSyntax

  /** The java.util.List<String> the pass edits in place. */
  class TokenList {
    var items: seq<string>

    constructor (items: seq<string>)
      ensures this.items == items
    {
      this.items := items;
    }
  }

  /** The pair (left, right) the pass rewrites: two numbers, the right one negative. */
  predicate NegativePair(left: string, right: string) {
    IsNumber(left) && IsNumber(right) && StartsWithMinus(right)
  }

  /** What one token becomes, given the original token before it. */
  function Piece(left: string, right: string): (r: seq<string>)
  {
    if NegativePair(left, right) then ["-", right[1..]] else [right]
  }

  /** The repaired remainder of the list, given the (already repaired) token before it. */
  function RepairAfter(prev: string, rest: seq<string>): seq<string>
    decreases |rest|
  {
    if rest == [] then []
    else if NegativePair(prev, rest[0]) then ["-", rest[0][1..]] + RepairAfter(rest[0][1..], rest[1..])
    else [rest[0]] + RepairAfter(rest[0], rest[1..])
  }

  /** The list fixNegativeOperators leaves behind. */
  function Repaired(tokens: seq<string>): seq<string> {
    if tokens == [] then [] else [tokens[0]] + RepairAfter(tokens[0], tokens[1..])
  }

  /** The number of original adjacent pairs that are negative pairs, the first one being (prev, rest[0]). */
  function NegativePairsAfter(prev: string, rest: seq<string>): nat
    decreases |rest|
  {
    if rest == [] then 0
    else (if NegativePair(prev, rest[0]) then 1 else 0) + NegativePairsAfter(rest[0], rest[1..])
  }

  function NegativePairCount(tokens: seq<string>): nat {
    if tokens == [] then 0 else NegativePairsAfter(tokens[0], tokens[1..])
  }

  predicate NoNegativePairs(tokens: seq<string>) {
    forall i :: 0 <= i < |tokens| - 1 ==> !NegativePair(tokens[i], tokens[i + 1])
  }

  /** Only whether the token before is a number matters to the repair of the rest. */
  lemma RepairDependsOnlyOnNumberness(p: string, q: string, rest: seq<string>)
    requires IsNumber(p) == IsNumber(q)
    ensures RepairAfter(p, rest) == RepairAfter(q, rest)
    ensures NegativePairsAfter(p, rest) == NegativePairsAfter(q, rest)
  {
  }

  /** The list grows by exactly one "-" per negative pair of the ORIGINAL list. */
  lemma {:induction false} RepairAfterLength(prev: string, rest: seq<string>)
    ensures |RepairAfter(prev, rest)| == |rest| + NegativePairsAfter(prev, rest)
    decreases |rest|
  {
    if rest != [] {
      var t := rest[0];
      if NegativePair(prev, t) {
        StripMinus(t);
        RepairDependsOnlyOnNumberness(t[1..], t, rest[1..]);
      }
      RepairAfterLength(if NegativePair(prev, t) then t[1..] else t, rest[1..]);
    }
  }

  lemma RepairedLength(tokens: seq<string>)
    ensures |Repaired(tokens)| == |tokens| + NegativePairCount(tokens)
  {
    if tokens != [] {
      RepairAfterLength(tokens[0], tokens[1..]);
    }
  }

  lemma {:induction false} RepairAfterLeavesNoNegativePair(prev: string, rest: seq<string>)
    ensures NoNegativePairs([prev] + RepairAfter(prev, rest))
    decreases |rest|
  {
    if rest != [] {
      var t := rest[0];
      if NegativePair(prev, t) {
        var u := t[1..];
        RepairAfterLeavesNoNegativePair(u, rest[1..]);
        var tail := [u] + RepairAfter(u, rest[1..]);
        assert [prev] + RepairAfter(prev, rest) == [prev, "-"] + tail;
        assert !IsNumber("-");
      } else {
        RepairAfterLeavesNoNegativePair(t, rest[1..]);
        var tail := [t] + RepairAfter(t, rest[1..]);
        assert [prev] + RepairAfter(prev, rest) == [prev] + tail;
      }
    }
  }

  /** Afterwards no number is followed by a negative number. */
  lemma RepairedHasNoNegativePair(tokens: seq<string>)
    ensures NoNegativePairs(Repaired(tokens))
  {
    if tokens != [] {
      RepairAfterLeavesNoNegativePair(tokens[0], tokens[1..]);
    }
  }

  lemma {:induction false} RepairAfterIdentity(prev: string, rest: seq<string>)
    requires NoNegativePairs([prev] + rest)
    ensures RepairAfter(prev, rest) == rest
    decreases |rest|
  {
    if rest != [] {
      assert ([prev] + rest)[0] == prev && ([prev] + rest)[1] == rest[0];
      assert [rest[0]] + rest[1..] == rest;
      assert NoNegativePairs(rest) by {
        forall i | 0 <= i < |rest| - 1 ensures !NegativePair(rest[i], rest[i + 1]) {
          assert ([prev] + rest)[i + 1] == rest[i] && ([prev] + rest)[i + 2] == rest[i + 1];
        }
      }
      RepairAfterIdentity(rest[0], rest[1..]);
    }
  }

  /** A list without negative pairs is left as it is. */
  lemma RepairedIdentity(tokens: seq<string>)
    requires NoNegativePairs(tokens)
    ensures Repaired(tokens) == tokens
  {
    if tokens != [] {
      assert [tokens[0]] + tokens[1..] == tokens;
      RepairAfterIdentity(tokens[0], tokens[1..]);
    }
  }

  /** Running the pass a second time changes nothing. */
  lemma RepairedIdempotent(tokens: seq<string>)
    ensures Repaired(Repaired(tokens)) == Repaired(tokens)
  {
    RepairedHasNoNegativePair(tokens);
    RepairedIdentity(Repaired(tokens));
  }

  /** The first token of the rest becomes its piece; the last token of the piece is what the next token sees. */
  lemma RepairAfterCons(prev: string, t: string, tail: seq<string>)
    ensures |Piece(prev, t)| > 0 && IsNumber(Last(Piece(prev, t))) == IsNumber(t)
    ensures RepairAfter(prev, [t] + tail) == Piece(prev, t) + RepairAfter(Last(Piece(prev, t)), tail)
  {
    assert ([t] + tail)[0] == t && ([t] + tail)[1..] == tail;
    if NegativePair(prev, t) {
      StripMinus(t);
    }
  }

  lemma {:induction false} RepairAfterSnoc(prev: string, rest: seq<string>, x: string)
    ensures RepairAfter(prev, rest + [x]) == RepairAfter(prev, rest) + Piece(Last([prev] + rest), x)
    decreases |rest|
  {
    if rest == [] {
      assert [prev] + rest == [prev] && rest + [x] == [x];
    } else {
      var t, tail := rest[0], rest[1..];
      assert rest == [t] + tail && rest + [x] == [t] + (tail + [x]);
      RepairAfterCons(prev, t, tail + [x]);
      RepairAfterCons(prev, t, tail);
      var p, next := Piece(prev, t), Last(Piece(prev, t));
      RepairAfterSnoc(next, tail, x);
      var q := Piece(Last([next] + tail), x);
      ConcatRight3(p, RepairAfter(next, tail), q);
      SameTokenBefore(prev, t, tail, next, x);
    }
  }

  /** The token before x is t or its unsigned form: both numbers or neither, so x gets the same piece. */
  lemma SameTokenBefore(prev: string, t: string, tail: seq<string>, next: string, x: string)
    requires IsNumber(next) == IsNumber(t)
    ensures Piece(Last([next] + tail), x) == Piece(Last([prev] + ([t] + tail)), x)
  {
    if tail == [] {
      assert Last([next] + tail) == next && Last([prev] + ([t] + tail)) == t;
    } else {
      assert Last([next] + tail) == Last(tail) == Last([prev] + ([t] + tail));
    }
  }

  /**
   * Appending a token to the input appends exactly its piece to the output:
   * each original token is kept, or split into "-" and its unsigned text,
   * according to the ORIGINAL token before it alone, and the order is kept.
   */
  lemma RepairedSnoc(tokens: seq<string>, x: string)
    requires tokens != []
    ensures Repaired(tokens + [x]) == Repaired(tokens) + Piece(Last(tokens), x)
  {
    assert (tokens + [x])[0] == tokens[0] && (tokens + [x])[1..] == tokens[1..] + [x];
    RepairAfterSnoc(tokens[0], tokens[1..], x);
    assert [tokens[0]] + tokens[1..] == tokens;
  }

  /** How far the pass has got: the list up to position i is final, the rest still to be repaired. */
  predicate RepairedUpTo(items: seq<string>, i: nat, goal: seq<string>) {
    i < |items| && items[..i + 1] + RepairAfter(items[i], items[i + 1..]) == goal
  }

  /** Moving past a pair that is not rewritten. */
  lemma KeepStep(items: seq<string>, i: nat, goal: seq<string>)
    requires i + 1 < |items| && RepairedUpTo(items, i, goal)
    requires !NegativePair(items[i], items[i + 1])
    ensures RepairedUpTo(items, i + 1, goal) && |items| <= |goal|
  {
    assert items[i + 1..] == [items[i + 1]] + items[i + 2..];
    assert items[..i + 2] == items[..i + 1] + [items[i + 1]];
    RepairAfterLength(items[i + 1], items[i + 2..]);
  }

  /** Rewriting a negative pair: the right number loses its sign and "-" goes in before it. */
  lemma SplitStep(items: seq<string>, i: nat, goal: seq<string>, next: seq<string>)
    requires i + 1 < |items| && RepairedUpTo(items, i, goal)
    requires NegativePair(items[i], items[i + 1])
    requires next == items[..i + 1] + ["-", items[i + 1][1..]] + items[i + 2..]
    ensures RepairedUpTo(next, i + 1, goal) && |next| <= |goal|
  {
    var u := items[i + 1][1..];
    assert items[i + 1..] == [items[i + 1]] + items[i + 2..];
    assert next[..i + 2] == items[..i + 1] + ["-"];
    assert next[i + 2..] == [u] + items[i + 2..];
    assert !IsNumber("-");
    StripMinus(items[i + 1]);
    RepairAfterLength(u, items[i + 2..]);
  }

  /**
   * The pass as the source runs it: an index loop over the list whose bound is
   * re-read on every iteration, so inserted tokens are scanned too; the list
   * is edited in place and returned.
   */
  method FixNegativeOperators(tokens: TokenList) returns (r: TokenList)
    modifies tokens
    ensures r == tokens
    ensures tokens.items == Repaired(old(tokens.items))
  {
    ghost var goal := Repaired(tokens.items);
    ghost var original := tokens.items;
    RepairedLength(original);
    var i := 0;
    while i < |tokens.items| - 1
      invariant original == [] ==> tokens.items == []
      invariant original != [] ==> RepairedUpTo(tokens.items, i, goal)
      invariant |tokens.items| <= |goal|
      decreases |goal| - i
    {
      var leftToken := tokens.items[i];
      var rightToken := tokens.items[i + 1];
      ghost var before := tokens.items;
      if IsNumber(leftToken) && IsNumber(rightToken) {
        if StartsWithMinus(rightToken) {
          rightToken := rightToken[1..];
          tokens.items := tokens.items[i + 1 := rightToken];
          tokens.items := tokens.items[..i + 1] + ["-"] + tokens.items[i + 1..];
          assert tokens.items == before[..i + 1] + ["-", rightToken] + before[i + 2..];
          SplitStep(before, i, goal, tokens.items);
        } else {
          KeepStep(before, i, goal);
        }
      } else {
        KeepStep(before, i, goal);
      }
      i := i + 1;
    }
    r := tokens;
  }
}
