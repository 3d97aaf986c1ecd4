/**
 * Worked cases of the pipeline. Number tokens are left symbolic (any a, b, c
 * with IsNumber), so each case covers every numeric literal at once.
 */
module Scenarios {
  import opened Wrappers
  import opened Seqs
  import opened Errors
  import opened NumberSyntax
  import opened Registry
  import opened Tokenizer
  import opened ShuntingYard
  import opened Evaluator
  import opened ExpressionParser
  import opened RoundTrip

  /**
   * Successful steps through the states in order (states[i] to states[i + 1]
   * on ts[i]), followed by the rest of the run.
   */
  lemma {:induction false} Steps(ts: seq<string>, states: seq<State>, rest: seq<string>, final: Result<State, Error>)
    requires |states| == |ts| + 1
    requires forall i :: 0 <= i < |ts| ==> Step(ts[i], states[i]) == Ok(states[i + 1])
    requires Run(rest, states[|ts|]) == final
    ensures Run(ts + rest, states[0]) == final
    decreases |ts|
  {
    if ts == [] {
      assert ts + rest == rest;
    } else {
      Steps(ts[1..], states[1..], rest, final);
      StepThenRun(ts[0], ts[1..] + rest, states[0], states[1], final);
      assert [ts[0]] + (ts[1..] + rest) == ts + rest;
    }
  }

  /** An operand step, with the output written out. */
  lemma Emit(t: string, stack: seq<string>, out: seq<string>, out2: seq<string>)
    requires IsOperand(t) && out2 == out + [t]
    ensures Step(t, State(stack, out)) == Ok(State(stack, out2))
  {
    StepOperand(t, State(stack, out));
  }

  /** An operator arriving on an empty stack is pushed. */
  lemma PushOnEmpty(op: string, out: seq<string>)
    requires IsOperator(op)
    ensures Step(op, State([], out)) == Ok(State([op], out))
  {
    StepOperator(op, State([], out));
    assert PopOperators(op, [], out) == State([], out);
    assert [] + [op] == [op];
  }

  /** An operator that pops the single operator on the stack takes its place. */
  lemma Replace(op: string, top: string, out: seq<string>, out2: seq<string>)
    requires IsOperator(op) && IsOperator(top) && Pops(op, top) && out2 == out + [top]
    ensures Step(op, State([top], out)) == Ok(State([op], out2))
  {
    StepOperator(op, State([top], out));
    assert PopOperators(op, [top], out) == State([], out + [top]);
    assert [] + [op] == [op];
  }

  /** An operator that does not pop the one below it is stacked on top. */
  lemma StackOn(op: string, below: seq<string>, out: seq<string>, above: seq<string>)
    requires IsOperator(op) && below != [] && IsOperator(Last(below)) && !Pops(op, Last(below))
    requires above == below + [op]
    ensures Step(op, State(below, out)) == Ok(State(above, out))
  {
    StepOperator(op, State(below, out));
  }

  /** The end of a run: the operators left on the stack are emitted from the top down. */
  lemma Finish(tokens: seq<string>, final: State, rpn: seq<string>)
    requires Run(tokens, State([], [])) == Ok(final)
    requires LeftParen !in final.stack && RightParen !in final.stack
    requires rpn == final.out + Reverse(final.stack)
    ensures ToRpn(tokens) == Ok(rpn)
  {
  }

  // ---------------------------------------------------------------------------
  // Grouping.

  /** The steps of a - b - c, up to the end of the list. */
  lemma LeftAssociativeRun(a: string, b: string, c: string)
    requires IsNumber(a) && IsNumber(b) && IsNumber(c)
    ensures Run([a, "-", b, "-", c], State([], [])) == Ok(State(["-"], [a, b, "-", c]))
  {
    assert IsOperator("-") && Pops("-", "-");
    var s5 := State(["-"], [a, b, "-", c]);
    Emit(a, [], [], [a]);
    PushOnEmpty("-", [a]);
    Emit(b, ["-"], [a], [a, b]);
    Replace("-", "-", [a, b], [a, b, "-"]);
    Emit(c, ["-"], [a, b, "-"], [a, b, "-", c]);
    Steps([a, "-", b, "-", c], [State([], []), State([], [a]), State(["-"], [a]), State(["-"], [a, b]),
      State(["-"], [a, b, "-"]), s5], [], Ok(s5));
    assert [a, "-", b, "-", c] + [] == [a, "-", b, "-", c];
  }

  /** a - b - c: equal precedence, left-associative, so the first `-` is emitted before c. */
  lemma LeftAssociativeRpn(a: string, b: string, c: string)
    requires IsNumber(a) && IsNumber(b) && IsNumber(c)
    ensures ToRpn([a, "-", b, "-", c]) == Ok([a, b, "-", c, "-"])
  {
    LeftAssociativeRun(a, b, c);
    Finish([a, "-", b, "-", c], State(["-"], [a, b, "-", c]), [a, b, "-", c, "-"]);
  }

  /** The steps of a ^ b ^ c, up to the end of the list. */
  lemma RightAssociativeRun(a: string, b: string, c: string)
    requires IsNumber(a) && IsNumber(b) && IsNumber(c)
    ensures Run([a, "^", b, "^", c], State([], [])) == Ok(State(["^", "^"], [a, b, c]))
  {
    assert IsOperator("^") && !Pops("^", "^");
    var s5 := State(["^", "^"], [a, b, c]);
    Emit(a, [], [], [a]);
    PushOnEmpty("^", [a]);
    Emit(b, ["^"], [a], [a, b]);
    StackOn("^", ["^"], [a, b], ["^", "^"]);
    Emit(c, ["^", "^"], [a, b], [a, b, c]);
    Steps([a, "^", b, "^", c], [State([], []), State([], [a]), State(["^"], [a]), State(["^"], [a, b]),
      State(["^", "^"], [a, b]), s5], [], Ok(s5));
    assert [a, "^", b, "^", c] + [] == [a, "^", b, "^", c];
  }

  /** a ^ b ^ c: right-associative, so both `^` wait on the stack and the second is applied first. */
  lemma RightAssociativeRpn(a: string, b: string, c: string)
    requires IsNumber(a) && IsNumber(b) && IsNumber(c)
    ensures ToRpn([a, "^", b, "^", c]) == Ok([a, b, c, "^", "^"])
  {
    RightAssociativeRun(a, b, c);
    Finish([a, "^", b, "^", c], State(["^", "^"], [a, b, c]), [a, b, c, "^", "^"]);
  }

  /** The steps of a + b * c, up to the end of the list. */
  lemma PrecedenceRun(a: string, b: string, c: string)
    requires IsNumber(a) && IsNumber(b) && IsNumber(c)
    ensures Run([a, "+", b, "*", c], State([], [])) == Ok(State(["+", "*"], [a, b, c]))
  {
    assert IsOperator("+") && IsOperator("*") && !Pops("*", "+");
    var s5 := State(["+", "*"], [a, b, c]);
    Emit(a, [], [], [a]);
    PushOnEmpty("+", [a]);
    Emit(b, ["+"], [a], [a, b]);
    StackOn("*", ["+"], [a, b], ["+", "*"]);
    Emit(c, ["+", "*"], [a, b], [a, b, c]);
    Steps([a, "+", b, "*", c], [State([], []), State([], [a]), State(["+"], [a]), State(["+"], [a, b]),
      State(["+", "*"], [a, b]), s5], [], Ok(s5));
    assert [a, "+", b, "*", c] + [] == [a, "+", b, "*", c];
  }

  /** a + b * c: `*` binds tighter, so it is emitted before `+`. */
  lemma PrecedenceRpn(a: string, b: string, c: string)
    requires IsNumber(a) && IsNumber(b) && IsNumber(c)
    ensures ToRpn([a, "+", b, "*", c]) == Ok([a, b, c, "*", "+"])
  {
    PrecedenceRun(a, b, c);
    Finish([a, "+", b, "*", c], State(["+", "*"], [a, b, c]), [a, b, c, "*", "+"]);
  }

  /** The steps of a ! * b, up to the end of the list. */
  lemma FactorialRun(a: string, b: string)
    requires IsNumber(a) && IsNumber(b)
    ensures Run([a, "!", "*", b], State([], [])) == Ok(State(["*"], [a, "!", b]))
  {
    assert IsOperator("!") && IsOperator("*") && Pops("*", "!");
    var s4 := State(["*"], [a, "!", b]);
    Emit(a, [], [], [a]);
    PushOnEmpty("!", [a]);
    Replace("*", "!", [a], [a, "!"]);
    Emit(b, ["*"], [a, "!"], [a, "!", b]);
    Steps([a, "!", "*", b], [State([], []), State([], [a]), State(["!"], [a]), State(["*"], [a, "!"]), s4], [],
      Ok(s4));
    assert [a, "!", "*", b] + [] == [a, "!", "*", b];
  }

  /** a ! * b: the factorial is popped by `*` and so applies to a alone. */
  lemma FactorialRpn(a: string, b: string)
    requires IsNumber(a) && IsNumber(b)
    ensures ToRpn([a, "!", "*", b]) == Ok([a, "!", b, "*"])
  {
    FactorialRun(a, b);
    Finish([a, "!", "*", b], State(["*"], [a, "!", b]), [a, "!", b, "*"]);
  }

  /** max ( a , b ) becomes a b max. */
  lemma FunctionCallRpn(a: string, b: string)
    requires IsNumber(a) && IsNumber(b)
    ensures ToRpn(["max", "(", a, ",", b, ")"]) == Ok([a, b, "max"])
  {
    assert IsFunction("max") && ArityOf("max") == 2;
    var args := [Num(a), Num(b)];
    var e := Call("max", args);
    assert args[0] == Num(a) && args[1] == Num(b);
    assert WellFormed(e);
    assert Print(e) == ["max", "("] + [a] + [","] + [b] + [")"];
    assert Postfix(e) == [a] + [b] + ["max"];
    ToRpnPrint(e);
    assert ["max", "("] + [a] + [","] + [b] + [")"] == ["max", "(", a, ",", b, ")"];
    assert [a] + [b] + ["max"] == [a, b, "max"];
  }

  /** A list that passes tokenize and converts to the RPN list of a tree parses to that tree. */
  lemma ParseFromRpn(tokens: seq<string>, e: Expr)
    requires NoAdjacentNumbers(tokens) && WellFormed(e) && ToRpn(tokens) == Ok(Postfix(e))
    ensures Parse(tokens) == Ok(e)
  {
    TokenizedUnchanged(tokens);
    RpnValuePostfix(e, TreeSemantics());
    DenoteTree(e);
  }

  /** Three numbers joined by two binary operators pass tokenize. */
  lemma ThreeNumbersApart(a: string, op1: string, b: string, op2: string, c: string)
    requires IsNumber(a) && IsNumber(b) && IsNumber(c) && !IsNumber(op1) && !IsNumber(op2)
    ensures NoAdjacentNumbers([a, op1, b, op2, c])
  {
    var tokens := [a, op1, b, op2, c];
    forall i | 0 <= i < 4 ensures !NumberPair(tokens, i) {
    }
  }

  /** A binary call on two well-formed trees is well formed; its RPN list ends with the callable. */
  lemma BinaryCall(op: string, x: Expr, y: Expr)
    requires IsCallable(op) && ArityOf(op) == 2 && WellFormed(x) && WellFormed(y)
    ensures WellFormed(Call(op, [x, y])) && Postfix(Call(op, [x, y])) == Postfix(x) + Postfix(y) + [op]
  {
    var args := [x, y];
    assert args[0] == x && args[1] == y;
  }

  /** The tree (a - b) - c and its RPN list. */
  lemma LeftNested(a: string, b: string, c: string)
    requires IsNumber(a) && IsNumber(b) && IsNumber(c)
    ensures WellFormed(Call("-", [Call("-", [Num(a), Num(b)]), Num(c)]))
    ensures Postfix(Call("-", [Call("-", [Num(a), Num(b)]), Num(c)])) == [a, b, "-", c, "-"]
  {
    assert IsOperator("-") && ArityOf("-") == 2;
    var ab := Call("-", [Num(a), Num(b)]);
    BinaryCall("-", Num(a), Num(b));
    BinaryCall("-", ab, Num(c));
  }

  /** The tree a ^ (b ^ c) and its RPN list. */
  lemma RightNested(a: string, b: string, c: string)
    requires IsNumber(a) && IsNumber(b) && IsNumber(c)
    ensures WellFormed(Call("^", [Num(a), Call("^", [Num(b), Num(c)])]))
    ensures Postfix(Call("^", [Num(a), Call("^", [Num(b), Num(c)])])) == [a, b, c, "^", "^"]
  {
    assert IsOperator("^") && ArityOf("^") == 2;
    var bc := Call("^", [Num(b), Num(c)]);
    BinaryCall("^", Num(b), Num(c));
    BinaryCall("^", Num(a), bc);
  }

  /** Parsed with the tree semantics, a - b - c is (a - b) - c. */
  lemma LeftAssociativeTree(a: string, b: string, c: string)
    requires IsNumber(a) && IsNumber(b) && IsNumber(c)
    ensures Parse([a, "-", b, "-", c]) == Ok(Call("-", [Call("-", [Num(a), Num(b)]), Num(c)]))
  {
    assert !IsNumber("-");
    ThreeNumbersApart(a, "-", b, "-", c);
    LeftAssociativeRpn(a, b, c);
    LeftNested(a, b, c);
    ParseFromRpn([a, "-", b, "-", c], Call("-", [Call("-", [Num(a), Num(b)]), Num(c)]));
  }

  /** Parsed with the tree semantics, a ^ b ^ c is a ^ (b ^ c). */
  lemma RightAssociativeTree(a: string, b: string, c: string)
    requires IsNumber(a) && IsNumber(b) && IsNumber(c)
    ensures Parse([a, "^", b, "^", c]) == Ok(Call("^", [Num(a), Call("^", [Num(b), Num(c)])]))
  {
    assert !IsNumber("^");
    ThreeNumbersApart(a, "^", b, "^", c);
    RightAssociativeRpn(a, b, c);
    RightNested(a, b, c);
    ParseFromRpn([a, "^", b, "^", c], Call("^", [Num(a), Call("^", [Num(b), Num(c)])]));
  }

  // ---------------------------------------------------------------------------
  // Tokenize.

  /** a b with b negative is read as a - |b|; with b not negative it is rejected. */
  lemma NegativeLiteralRepair(a: string, b: string)
    requires IsNumber(a) && IsNumber(b)
    ensures StartsWithMinus(b) ==> Tokenized([a, b]) == Ok([a, "-", b[1..]])
    ensures !StartsWithMinus(b) ==> Tokenized([a, b]) == Err(AdjacentNumbers(a, b))
  {
    var lexed := [a, b];
    assert lexed[0] == a && lexed[1..] == [b] && [b][0] == b && [b][1..] == [];
    if StartsWithMinus(b) {
      StripMinus(b);
      var u := b[1..];
      assert RepairAfter(a, [b]) == ["-", u] + RepairAfter(u, []);
      var fixed := [a, "-", u];
      assert Repaired(lexed) == fixed;
      assert !IsNumber("-");
      assert !NumberPair(fixed, 0) && !NumberPair(fixed, 1);
    } else {
      assert RepairAfter(a, [b]) == [b] + RepairAfter(b, []);
      assert Repaired(lexed) == [a, b];
      assert NumberPair([a, b], 0);
    }
  }

  /**
   * The repair only looks at number pairs: in ( a ) b with b negative nothing
   * is repaired, and evaluation ends with two values on the stack.
   */
  lemma NoRepairAfterParenthesis<V>(a: string, b: string, sem: Semantics<V>)
    requires IsNumber(a) && IsNumber(b) && StartsWithMinus(b)
    ensures Tokenized(["(", a, ")", b]) == Ok(["(", a, ")", b])
    ensures ExpressionValue(["(", a, ")", b], sem) == Err(MultipleValues(2))
  {
    var tokens := ["(", a, ")", b];
    assert !IsNumber("(") && !IsNumber(")");
    assert NoAdjacentNumbers(tokens) by {
      forall i | 0 <= i < 3 ensures !NumberPair(tokens, i) {
      }
    }
    TokenizedUnchanged(tokens);
    var s3 := State([], [a]);
    var s4 := State([], [a, b]);
    Emit(b, [], [a], [a, b]);
    StepThenRun(b, [], s3, s4, Ok(s4));
    assert [b] + [] == [b];
    CloseDirectly([], [a], MismatchedParentheses);
    StepRightParen(State(["("], [a]));
    assert [] + ["("] == ["("];
    StepThenRun(")", [b], State(["("], [a]), s3, Ok(s4));
    assert [")"] + [b] == [")", b];
    Emit(a, ["("], [], [a]);
    StepThenRun(a, [")", b], State(["("], []), State(["("], [a]), Ok(s4));
    assert [a] + [")", b] == [a, ")", b];
    StepLeftParen(State([], []));
    assert [] + ["("] == ["("];
    StepThenRun("(", [a, ")", b], State([], []), State(["("], []), Ok(s4));
    assert ["("] + [a, ")", b] == tokens;
    assert ToRpn(tokens) == Ok([a, b]);
    TwoValuesLeft(a, b, sem);
  }

  // ---------------------------------------------------------------------------
  // Errors.

  /** ( a: the `(` is still on the stack at the end. */
  lemma UnclosedParenthesis(a: string)
    requires IsNumber(a)
    ensures ToRpn(["(", a]) == Err(MismatchedParentheses)
  {
    var s2 := State(["("], [a]);
    Emit(a, ["("], [], [a]);
    StepThenRun(a, [], State(["("], []), s2, Ok(s2));
    assert [a] + [] == [a];
    StepLeftParen(State([], []));
    assert [] + ["("] == ["("];
    StepThenRun("(", [a], State([], []), State(["("], []), Ok(s2));
    assert ["("] + [a] == ["(", a];
  }

  /** a , b outside any call: the separator peeks at an empty stack. */
  lemma SeparatorOutsideCall(a: string, b: string)
    requires IsNumber(a) && IsNumber(b)
    ensures ToRpn([a, ",", b]) == Err(EmptyStack)
  {
    StepSeparator(State([], [a]));
    RunCons(",", [b], State([], [a]));
    assert [","] + [b] == [",", b];
    Emit(a, [], [], [a]);
    StepThenRun(a, [",", b], State([], []), State([], [a]), Err(EmptyStack));
    assert [a] + [",", b] == [a, ",", b];
  }

  /** a + b ): the `)` pops `+` and then finds the stack empty. */
  lemma UnopenedParenthesis(a: string, b: string)
    requires IsNumber(a) && IsNumber(b)
    ensures ToRpn([a, "+", b, ")"]) == Err(MismatchedParentheses)
  {
    assert IsOperator("+");
    StepRightParen(State(["+"], [a, b]));
    RunCons(")", [], State(["+"], [a, b]));
    assert [")"] + [] == [")"];
    Emit(b, ["+"], [a], [a, b]);
    StepThenRun(b, [")"], State(["+"], [a]), State(["+"], [a, b]), Err(MismatchedParentheses));
    assert [b] + [")"] == [b, ")"];
    PushOnEmpty("+", [a]);
    StepThenRun("+", [b, ")"], State([], [a]), State(["+"], [a]), Err(MismatchedParentheses));
    assert ["+"] + [b, ")"] == ["+", b, ")"];
    Emit(a, [], [], [a]);
    StepThenRun(a, ["+", b, ")"], State([], []), State([], [a]), Err(MismatchedParentheses));
    assert [a] + ["+", b, ")"] == [a, "+", b, ")"];
  }

  /** Two numbers in a row leave two values on the operand stack. */
  lemma TwoValuesLeft<V>(a: string, b: string, sem: Semantics<V>)
    requires IsNumber(a) && IsNumber(b)
    ensures RpnValue([a, b], sem) == Err(MultipleValues(2))
  {
    Disjoint(a);
    Disjoint(b);
    var na, nb := sem.number(a), sem.number(b);
    assert EvalToken(a, [], sem) == Ok([na]) by {
      assert [na] + [] == [na];
    }
    assert EvalToken(b, [na], sem) == Ok([nb, na]) by {
      assert [nb] + [na] == [nb, na];
    }
    assert EvalRpn([b], [na], sem) == Ok([nb, na]) by {
      assert [b][0] == b && [b][1..] == [];
    }
    assert EvalRpn([a, b], [], sem) == Ok([nb, na]) by {
      assert [a, b][0] == a && [a, b][1..] == [b];
    }
  }

  /** The evaluation failures: a missing operand, two values left, nothing left, an unknown token. */
  lemma EvaluationFailures<V>(a: string, b: string, sem: Semantics<V>)
    requires IsNumber(a) && IsNumber(b)
    ensures RpnValue(["+"], sem) == Err(NoSuchElement)
    ensures RpnValue([a, b], sem) == Err(MultipleValues(2))
    ensures RpnValue([], sem) == Err(NoSuchElement)
    ensures RpnValue(["x"], sem) == Err(InvalidToken("x"))
  {
    assert IsOperator("+") && ArityOf("+") == 2;
    assert !IsCallable("x") && !IsOperand("x");
    assert ["+"][0] == "+" && ["x"][0] == "x";
    TwoValuesLeft(a, b, sem);
  }

}
