/**
 * ExpressionParser.tokenize and evaluate(String): the lexed tokens are
 * repaired (Tokenizer.fixNegativeOperators), checked for two numbers side by
 * side, converted to RPN by the shunting-yard pass and evaluated.
 */
module ExpressionParser {
  import opened Wrappers
  import opened Errors
  import opened NumberSyntax
  import opened Tokenizer
  import opened ShuntingYard
  import opened Evaluator

  /** Positions i and i + 1 both hold numbers. */
  predicate NumberPair(tokens: seq<string>, i: int)
    requires 0 <= i < |tokens| - 1
  {
    IsNumber(tokens[i]) && IsNumber(tokens[i + 1])
  }

  predicate NoAdjacentNumbers(tokens: seq<string>) {
    forall i :: 0 <= i < |tokens| - 1 ==> !NumberPair(tokens, i)
  }

  /** No two numbers side by side from position i on. */
  predicate NoNumberPairFrom(tokens: seq<string>, i: nat) {
    forall j :: i <= j < |tokens| - 1 ==> !NumberPair(tokens, j)
  }

  /** k is the first position from i on where two numbers stand side by side. */
  predicate FirstNumberPair(tokens: seq<string>, i: nat, k: nat) {
    i <= k < |tokens| - 1 && NumberPair(tokens, k) && forall j :: i <= j < k ==> !NumberPair(tokens, j)
  }

  /**
   * The sanity loop of tokenize from position i on: the list passes when no
   * two numbers are adjacent from there on (CheckFromRejects says how it fails
   * otherwise).
   */
  function CheckFrom(tokens: seq<string>, i: nat): (r: Result<seq<string>, Error>)
    ensures r.Ok? <==> NoNumberPairFrom(tokens, i)
    ensures r.Ok? ==> r.value == tokens
    decreases |tokens| - i
  {
    if i + 1 >= |tokens| then Ok(tokens)
    else if NumberPair(tokens, i) then Err(AdjacentNumbers(tokens[i], tokens[i + 1]))
    else CheckFrom(tokens, i + 1)
  }

  /** A failing check names the first pair of adjacent numbers from position i on. */
  lemma {:induction false} CheckFromRejects(tokens: seq<string>, i: nat)
    ensures CheckFrom(tokens, i).Err? ==>
      exists k: nat :: (FirstNumberPair(tokens, i, k) && CheckFrom(tokens, i).error == AdjacentNumbers(tokens[k], tokens[k + 1]))
    decreases |tokens| - i
  {
    if i + 1 < |tokens| && NumberPair(tokens, i) {
      assert FirstNumberPair(tokens, i, i);
    } else if i + 1 < |tokens| {
      var r := CheckFrom(tokens, i + 1);
      assert CheckFrom(tokens, i) == r;
      if r.Err? {
        CheckFromRejects(tokens, i + 1);
        var k: nat :| FirstNumberPair(tokens, i + 1, k) && r.error == AdjacentNumbers(tokens[k], tokens[k + 1]);
        assert FirstNumberPair(tokens, i, k);
      }
    }
  }

  /** What tokenize returns (Ok) or throws (Err) for a lexed token list. */
  function Tokenized(lexed: seq<string>): Result<seq<string>, Error> {
    CheckFrom(Repaired(lexed), 0)
  }

  /**
   * The check only fires on pairs the repair could not split: after the
   * repair, the right-hand number of a rejected pair is never negative.
   */
  lemma TokenizedRejectsOnlyNonNegativePairs(lexed: seq<string>)
    ensures Tokenized(lexed).Ok? <==> NoAdjacentNumbers(Repaired(lexed))
    ensures Tokenized(lexed).Ok? ==> Tokenized(lexed).value == Repaired(lexed)
    ensures Tokenized(lexed).Err? ==>
      Tokenized(lexed).error.AdjacentNumbers? && IsNumber(Tokenized(lexed).error.left) &&
      IsNumber(Tokenized(lexed).error.right) && !StartsWithMinus(Tokenized(lexed).error.right)
  {
    var fixed := Repaired(lexed);
    RepairedHasNoNegativePair(lexed);
    CheckFromRejects(fixed, 0);
    if CheckFrom(fixed, 0).Err? {
      var k: nat :| FirstNumberPair(fixed, 0, k) && CheckFrom(fixed, 0).error == AdjacentNumbers(fixed[k], fixed[k + 1]);
      assert !NegativePair(fixed[k], fixed[k + 1]);
    }
  }

  /** A list with no two adjacent numbers passes tokenize untouched: there is nothing to repair or reject. */
  lemma TokenizedUnchanged(tokens: seq<string>)
    requires NoAdjacentNumbers(tokens)
    ensures Tokenized(tokens) == Ok(tokens)
  {
    assert NoNegativePairs(tokens) by {
      forall i | 0 <= i < |tokens| - 1
        ensures !NegativePair(tokens[i], tokens[i + 1])
      {
        assert !NumberPair(tokens, i);
      }
    }
    RepairedIdentity(tokens);
  }

  /** tokenize as the source runs it: repair in place, then scan adjacent pairs. */
  method Tokenize(lexed: seq<string>) returns (r: Result<seq<string>, Error>)
    ensures r == Tokenized(lexed)
  {
    var list := new TokenList(lexed);
    var fixed := FixNegativeOperators(list);
    var tokens := fixed.items;
    var i := 0;
    while i < |tokens| - 1
      invariant 0 <= i
      invariant CheckFrom(tokens, i) == Tokenized(lexed)
      decreases |tokens| - i
    {
      var leftToken := tokens[i];
      var rightToken := tokens[i + 1];
      if IsNumber(leftToken) && IsNumber(rightToken) {
        return Err(AdjacentNumbers(leftToken, rightToken));
      }
      i := i + 1;
    }
    return Ok(tokens);
  }

  /** What evaluate(String) returns (Ok) or throws (Err), from the lexed tokens. */
  function ExpressionValue<V>(lexed: seq<string>, sem: Semantics<V>): Result<V, Error> {
    match Tokenized(lexed)
    case Err(e) => Err(e)
    case Ok(tokens) =>
      match ToRpn(tokens)
      case Err(e) => Err(e)
      case Ok(rpn) => RpnValue(rpn, sem)
  }

  /** evaluate(String): tokenize, shunting yard, evaluate the RPN list. */
  method Evaluate<V(0)>(lexed: seq<string>, sem: Semantics<V>) returns (r: Result<V, Error>)
    ensures r == ExpressionValue(lexed, sem)
  {
    var tokens := Tokenize(lexed);
    if tokens.Err? {
      return Err(tokens.error);
    }
    var outputQueue := ShuntingYard.ShuntingYard(tokens.value);
    if outputQueue.Err? {
      return Err(outputQueue.error);
    }
    r := EvaluateRpn(outputQueue.value, sem);
  }
}
