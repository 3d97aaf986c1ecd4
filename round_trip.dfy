/**
 * The whole evaluator against expression trees. An expression printed with
 * every operator application in parentheses goes through tokenize,
 * shuntingYard and evaluate(List) to exactly the value its tree denotes; with
 * the semantics that rebuilds trees, parsing the printed text gives back the
 * tree itself.
 */
module RoundTrip {
  import opened Wrappers
  import opened Seqs
  import opened Errors
  import opened NumberSyntax
  import opened Registry
  import opened Tokenizer
  import opened ShuntingYard
  import opened Evaluator
  import opened ExpressionParser

  datatype Expr = Num(text: string) | Const(name: string) | Call(callee: string, args: seq<Expr>)

  /** Numbers are number tokens, constants are registered, callables get as many arguments as they take. */
  predicate WellFormed(e: Expr)
    decreases e
  {
    match e
    case Num(t) => IsNumber(t)
    case Const(c) => IsConstant(c)
    case Call(f, args) => IsCallable(f) && |args| == ArityOf(f) && forall i :: 0 <= i < |args| ==> WellFormed(args[i])
  }

  /**
   * The token list of e: functions as f(a) and f(a,b), binary operators as
   * (a op b), the postfix operator as (a !).
   */
  function Print(e: Expr): seq<string>
    decreases e
  {
    match e
    case Num(t) => [t]
    case Const(c) => [c]
    case Call(f, args) =>
      if |args| == 1 then
        if IsFunction(f) then [f, LeftParen] + Print(args[0]) + [RightParen]
        else [LeftParen] + Print(args[0]) + [f, RightParen]
      else if |args| == 2 then
        if IsFunction(f) then [f, LeftParen] + Print(args[0]) + [FunctionArgumentSeparator] + Print(args[1]) + [RightParen]
        else [LeftParen] + Print(args[0]) + [f] + Print(args[1]) + [RightParen]
      else []
  }

  /** The RPN list of e: the arguments' lists in order, then the callable. */
  function Postfix(e: Expr): seq<string>
    decreases e
  {
    match e
    case Num(t) => [t]
    case Const(c) => [c]
    case Call(f, args) =>
      if |args| == 1 then Postfix(args[0]) + [f]
      else if |args| == 2 then Postfix(args[0]) + Postfix(args[1]) + [f]
      else []
  }

  /** The value of e under a semantics. */
  function Denote<V>(e: Expr, sem: Semantics<V>): V
    decreases e
  {
    match e
    case Num(t) => sem.number(t)
    case Const(c) => sem.constant(c)
    case Call(f, args) =>
      if |args| == 1 then sem.apply(f, [Denote(args[0], sem)])
      else if |args| == 2 then sem.apply(f, [Denote(args[0], sem), Denote(args[1], sem)])
      else sem.apply(f, [])
  }

  /** The semantics whose values are the trees themselves. */
  function TreeSemantics(): Semantics<Expr> {
    Semantics(t => Num(t), c => Const(c), (f, vs) => Call(f, vs))
  }

  /** Parsing: evaluate(String) with the tree semantics. */
  function Parse(lexed: seq<string>): Result<Expr, Error> {
    ExpressionValue(lexed, TreeSemantics())
  }

  // ---------------------------------------------------------------------------
  // The tokenize check passes on printed expressions.

  lemma NoAdjacentNumbersAround(a: seq<string>, x: string, b: seq<string>)
    requires NoAdjacentNumbers(a) && NoAdjacentNumbers(b) && !IsNumber(x)
    ensures NoAdjacentNumbers(a + [x] + b)
  {
    var s := a + [x] + b;
    forall i | 0 <= i < |s| - 1
      ensures !NumberPair(s, i)
    {
      if i < |a| - 1 {
        assert s[i] == a[i] && s[i + 1] == a[i + 1] && NumberPair(a, i) == NumberPair(s, i);
      } else if i >= |a| + 1 {
        assert s[i] == b[i - |a| - 1] && s[i + 1] == b[i - |a|] && NumberPair(b, i - |a| - 1) == NumberPair(s, i);
      } else {
        assert s[|a|] == x;
      }
    }
  }

  /** Tokens that are not numbers around a list cannot form a number pair with it. */
  lemma NoAdjacentNumbersBracketed(pre: seq<string>, p: seq<string>, post: seq<string>)
    requires forall t :: t in pre ==> !IsNumber(t)
    requires forall t :: t in post ==> !IsNumber(t)
    requires NoAdjacentNumbers(p)
    ensures NoAdjacentNumbers(pre + p + post)
  {
    var s := pre + p + post;
    forall i | 0 <= i < |s| - 1
      ensures !NumberPair(s, i)
    {
      if i < |pre| {
        assert s[i] == pre[i] && s[i] in pre;
      } else if i + 1 >= |pre| + |p| {
        assert s[i + 1] == post[i + 1 - |pre| - |p|] && s[i + 1] in post;
      } else {
        assert s[i] == p[i - |pre|] && s[i + 1] == p[i + 1 - |pre|] && NumberPair(p, i - |pre|) == NumberPair(s, i);
      }
    }
  }

  /** The shape of a printed call with two arguments. */
  lemma NoAdjacentNumbersBinary(pre: seq<string>, p0: seq<string>, x: string, p1: seq<string>, post: seq<string>)
    requires forall t :: t in pre ==> !IsNumber(t)
    requires forall t :: t in post ==> !IsNumber(t)
    requires NoAdjacentNumbers(p0) && NoAdjacentNumbers(p1) && !IsNumber(x)
    ensures NoAdjacentNumbers(pre + p0 + [x] + p1 + post)
  {
    NoAdjacentNumbersAround(p0, x, p1);
    NoAdjacentNumbersBracketed(pre, p0 + [x] + p1, post);
    assert pre + p0 + [x] + p1 + post == pre + (p0 + [x] + p1) + post;
  }

  lemma {:induction false} PrintHasNoAdjacentNumbers(e: Expr)
    requires WellFormed(e)
    ensures NoAdjacentNumbers(Print(e))
    decreases e
  {
    match e
    case Num(_) =>
    case Const(_) =>
    case Call(f, args) =>
      Disjoint(f);
      Disjoint(LeftParen);
      Disjoint(RightParen);
      Disjoint(FunctionArgumentSeparator);
      PrintHasNoAdjacentNumbers(args[0]);
      if |args| == 1 {
        if IsFunction(f) {
          NoAdjacentNumbersBracketed([f, LeftParen], Print(args[0]), [RightParen]);
        } else {
          NoAdjacentNumbersBracketed([LeftParen], Print(args[0]), [f, RightParen]);
        }
      } else {
        PrintHasNoAdjacentNumbers(args[1]);
        if IsFunction(f) {
          NoAdjacentNumbersBinary([f, LeftParen], Print(args[0]), FunctionArgumentSeparator, Print(args[1]), [RightParen]);
        } else {
          NoAdjacentNumbersBinary([LeftParen], Print(args[0]), f, Print(args[1]), [RightParen]);
        }
      }
  }

  /** A printed expression passes tokenize unchanged. */
  lemma TokenizePrint(e: Expr)
    requires WellFormed(e)
    ensures Tokenized(Print(e)) == Ok(Print(e))
  {
    PrintHasNoAdjacentNumbers(e);
    TokenizedUnchanged(Print(e));
  }

  // ---------------------------------------------------------------------------
  // The shunting-yard pass turns a printed expression into its RPN list.

  /** A `)` right above `(`: the `(` goes, and so does a function name under it. */
  lemma CloseDirectly(stack: seq<string>, out: seq<string>, err: Error)
    ensures PopToLeftParen(stack + [LeftParen], out, err) == Ok(State(stack + [LeftParen], out))
    ensures CloseParen(State(stack + [LeftParen], out)) ==
      if stack != [] && IsFunction(Last(stack)) then State(Butlast(stack), out + [Last(stack)]) else State(stack, out)
  {
    assert Butlast(stack + [LeftParen]) == stack;
  }

  /** A `)` with one operator above `(`: the operator goes to the output first. */
  lemma CloseAfterOperator(stack: seq<string>, op: string, out: seq<string>)
    requires IsOperator(op)
    ensures PopToLeftParen(stack + [LeftParen, op], out, MismatchedParentheses) == Ok(State(stack + [LeftParen], out + [op]))
  {
    Disjoint(op);
    assert Last(stack + [LeftParen, op]) == op;
    assert Butlast(stack + [LeftParen, op]) == stack + [LeftParen];
    assert PopWhileNotLeftParen(stack + [LeftParen], out + [op], MismatchedParentheses) == Ok(State(stack + [LeftParen], out + [op]));
  }

  /** An operator arriving right above `(` pops nothing. */
  lemma OperatorAfterLeftParen(op: string, stack: seq<string>, out: seq<string>)
    requires IsOperator(op)
    ensures PopOperators(op, stack + [LeftParen], out) == State(stack + [LeftParen], out)
  {
    Disjoint(LeftParen);
  }

  /** The `)` of f( ... ): the name under `(` goes to the output. */
  lemma CloseFunction(stack: seq<string>, f: string, out: seq<string>)
    requires IsFunction(f)
    ensures Run([RightParen], State(stack + [f] + [LeftParen], out)) == Ok(State(stack, out + [f]))
  {
    var st := State(stack + [f] + [LeftParen], out);
    StepRightParen(st);
    CloseDirectly(stack + [f], out, MismatchedParentheses);
    assert Butlast(stack + [f]) == stack && Last(stack + [f]) == f;
    RunCons(RightParen, [], st);
    assert [RightParen] + [] == [RightParen];
  }

  /** The `)` of ( ... op ... ) when no function name waits below: the operator goes to the output. */
  lemma CloseOperator(stack: seq<string>, op: string, out: seq<string>)
    requires IsOperator(op)
    requires stack == [] || !IsFunction(Last(stack))
    ensures Run([RightParen], State(stack + [LeftParen, op], out)) == Ok(State(stack, out + [op]))
  {
    var st := State(stack + [LeftParen, op], out);
    StepRightParen(st);
    CloseAfterOperator(stack, op, out);
    CloseDirectly(stack, out + [op], MismatchedParentheses);
    RunCons(RightParen, [], st);
    assert [RightParen] + [] == [RightParen];
  }

  /** An operator right above `(` is pushed straight away. */
  lemma StepOperatorAfterLeftParen(f: string, S: seq<string>, out: seq<string>)
    requires IsOperator(f)
    ensures Step(f, State(S + [LeftParen], out)) == Ok(State(S + [LeftParen, f], out))
  {
    StepOperator(f, State(S + [LeftParen], out));
    OperatorAfterLeftParen(f, S, out);
    assert S + [LeftParen] + [f] == S + [LeftParen, f];
  }

  /** ( p0 op p1 ), given what the pass does on p0 and on p1 (p1 is empty for the postfix operator). */
  lemma RunOperatorCall(S: seq<string>, O: seq<string>, f: string, p0: seq<string>, q0: seq<string>, p1: seq<string>, q1: seq<string>)
    requires IsOperator(f)
    requires S == [] || !IsFunction(Last(S))
    requires Run(p0, State(S + [LeftParen], O)) == Ok(State(S + [LeftParen], O + q0))
    requires Run(p1, State(S + [LeftParen, f], O + q0)) == Ok(State(S + [LeftParen, f], O + q0 + q1))
    ensures Run([LeftParen] + p0 + [f] + p1 + [RightParen], State(S, O)) == Ok(State(S, O + q0 + q1 + [f]))
  {
    var final := Ok(State(S, O + q0 + q1 + [f]));
    var s1 := State(S + [LeftParen], O);
    var s2 := State(S + [LeftParen], O + q0);
    RunOperatorTail(S, O + q0, f, p1, q1);
    RunThenRun(p0, [f] + (p1 + [RightParen]), s1, s2, final);
    StepLeftParen(State(S, O));
    StepThenRun(LeftParen, p0 + ([f] + (p1 + [RightParen])), State(S, O), s1, final);
    ConcatRight([LeftParen], p0, [f], p1, [RightParen]);
  }

  /** The end of ( p0 op p1 ): the operator is pushed above `(`, then p1, then `)` sends it to the output. */
  lemma RunOperatorTail(S: seq<string>, O: seq<string>, f: string, p1: seq<string>, q1: seq<string>)
    requires IsOperator(f)
    requires S == [] || !IsFunction(Last(S))
    requires Run(p1, State(S + [LeftParen, f], O)) == Ok(State(S + [LeftParen, f], O + q1))
    ensures Run([f] + (p1 + [RightParen]), State(S + [LeftParen], O)) == Ok(State(S, O + q1 + [f]))
  {
    var final := Ok(State(S, O + q1 + [f]));
    var s3 := State(S + [LeftParen, f], O);
    CloseOperator(S, f, O + q1);
    RunThenRun(p1, [RightParen], s3, State(S + [LeftParen, f], O + q1), final);
    StepOperatorAfterLeftParen(f, S, O);
    StepThenRun(f, p1 + [RightParen], State(S + [LeftParen], O), s3, final);
  }

  /** f ( p0 [, p1] ), given what the pass does on the arguments; tail is `)` or `,` p1 `)`. */
  lemma RunFunctionCall(S: seq<string>, O: seq<string>, f: string, p0: seq<string>, q0: seq<string>, tail: seq<string>, q1: seq<string>)
    requires IsFunction(f)
    requires Run(p0, State(S + [f] + [LeftParen], O)) == Ok(State(S + [f] + [LeftParen], O + q0))
    requires Run(tail, State(S + [f] + [LeftParen], O + q0)) == Ok(State(S, O + q0 + q1 + [f]))
    ensures Run([f, LeftParen] + p0 + tail, State(S, O)) == Ok(State(S, O + q0 + q1 + [f]))
  {
    var final := Ok(State(S, O + q0 + q1 + [f]));
    var s1 := State(S + [f], O);
    var s2 := State(S + [f] + [LeftParen], O);
    RunThenRun(p0, tail, s2, State(S + [f] + [LeftParen], O + q0), final);
    StepLeftParen(s1);
    StepThenRun(LeftParen, p0 + tail, s1, s2, final);
    StepFunction(f, State(S, O));
    StepThenRun(f, [LeftParen] + (p0 + tail), State(S, O), s1, final);
    assert [f, LeftParen] + p0 + tail == [f] + ([LeftParen] + (p0 + tail));
  }

  /** The end of f ( p0 , p1 ): the separator pops nothing, then p1, then `)`. */
  lemma RunSecondArgument(S: seq<string>, O: seq<string>, f: string, p1: seq<string>, q1: seq<string>)
    requires IsFunction(f)
    requires Run(p1, State(S + [f] + [LeftParen], O)) == Ok(State(S + [f] + [LeftParen], O + q1))
    ensures Run([FunctionArgumentSeparator] + p1 + [RightParen], State(S + [f] + [LeftParen], O)) == Ok(State(S, O + q1 + [f]))
  {
    var st := State(S + [f] + [LeftParen], O);
    var final := Ok(State(S, O + q1 + [f]));
    CloseFunction(S, f, O + q1);
    RunThenRun(p1, [RightParen], st, State(S + [f] + [LeftParen], O + q1), final);
    StepSeparator(st);
    CloseDirectly(S + [f], O, MismatchedParenthesesOrComma);
    StepThenRun(FunctionArgumentSeparator, p1 + [RightParen], st, st, final);
    assert [FunctionArgumentSeparator] + p1 + [RightParen] == [FunctionArgumentSeparator] + (p1 + [RightParen]);
  }

  /**
   * The pass over a printed expression emits its RPN list and leaves the
   * stack as it found it, provided no function name is waiting on top.
   */
  lemma {:induction false} ShuntPrint(e: Expr, st: State)
    requires WellFormed(e)
    requires st.stack == [] || !IsFunction(Last(st.stack))
    ensures Run(Print(e), st) == Ok(State(st.stack, st.out + Postfix(e)))
    decreases e, 2
  {
    match e
    case Num(t) =>
      StepOperand(t, st);
      RunCons(t, [], st);
    case Const(c) =>
      StepOperand(c, st);
      RunCons(c, [], st);
    case Call(f, args) =>
      if IsFunction(f) {
        ShuntFunctionCall(e, st.stack, st.out);
      } else {
        ShuntOperatorCall(e, st.stack, st.out);
      }
  }

  lemma {:induction false} ShuntFunctionCall(e: Expr, S: seq<string>, O: seq<string>)
    requires WellFormed(e) && e.Call? && IsFunction(e.callee)
    ensures Run(Print(e), State(S, O)) == Ok(State(S, O + Postfix(e)))
    decreases e, 1
  {
    var f, args := e.callee, e.args;
    var p0, q0 := Print(args[0]), Postfix(args[0]);
    var inner := S + [f] + [LeftParen];
    assert Run(p0, State(inner, O)) == Ok(State(inner, O + q0)) by {
      Disjoint(LeftParen);
      ShuntPrint(args[0], State(inner, O));
    }
    if |args| == 1 {
      assert Run([f, LeftParen] + p0 + [RightParen], State(S, O)) == Ok(State(S, O + q0 + [] + [f])) by {
        CloseFunction(S, f, O + q0);
        assert O + q0 + [] == O + q0;
        RunFunctionCall(S, O, f, p0, q0, [RightParen], []);
      }
      assert Print(e) == [f, LeftParen] + p0 + [RightParen];
      assert q0 + [] == q0;
      AppendThree(O, q0, [], [f]);
    } else {
      ShuntSecondArgument(e, S, O);
    }
  }

  /** The rest of f ( a0 , a1 ) once a0 is through. */
  lemma {:induction false} ShuntSecondArgument(e: Expr, S: seq<string>, O: seq<string>)
    requires WellFormed(e) && e.Call? && IsFunction(e.callee) && |e.args| == 2
    requires Run(Print(e.args[0]), State(S + [e.callee] + [LeftParen], O)) ==
      Ok(State(S + [e.callee] + [LeftParen], O + Postfix(e.args[0])))
    ensures Run(Print(e), State(S, O)) == Ok(State(S, O + Postfix(e)))
    decreases e, 0
  {
    var f, args := e.callee, e.args;
    var p0, q0 := Print(args[0]), Postfix(args[0]);
    var p1, q1 := Print(args[1]), Postfix(args[1]);
    var inner := S + [f] + [LeftParen];
    var tail := [FunctionArgumentSeparator] + p1 + [RightParen];
    var out := O + q0 + q1 + [f];
    assert Print(e) == [f, LeftParen] + p0 + tail;
    AppendThree(O, q0, q1, [f]);
    assert Run(tail, State(inner, O + q0)) == Ok(State(S, out)) by {
      Disjoint(LeftParen);
      ShuntPrint(args[1], State(inner, O + q0));
      RunSecondArgument(S, O + q0, f, p1, q1);
    }
    RunFunctionCall(S, O, f, p0, q0, tail, q1);
  }

  lemma {:induction false} ShuntOperatorCall(e: Expr, S: seq<string>, O: seq<string>)
    requires WellFormed(e) && e.Call? && !IsFunction(e.callee)
    requires S == [] || !IsFunction(Last(S))
    ensures Run(Print(e), State(S, O)) == Ok(State(S, O + Postfix(e)))
    decreases e, 1
  {
    if |e.args| == 1 {
      ShuntPostfixOperator(e, S, O);
    } else {
      ShuntBinaryOperator(e, S, O);
    }
  }

  /** ( a ! ) */
  lemma {:induction false} ShuntPostfixOperator(e: Expr, S: seq<string>, O: seq<string>)
    requires WellFormed(e) && e.Call? && !IsFunction(e.callee) && |e.args| == 1
    requires S == [] || !IsFunction(Last(S))
    ensures Run(Print(e), State(S, O)) == Ok(State(S, O + Postfix(e)))
    decreases e, 0
  {
    var f, a := e.callee, e.args[0];
    Disjoint(LeftParen);
    ShuntPrint(a, State(S + [LeftParen], O));
    assert O + Postfix(a) + [] == O + Postfix(a);
    RunOperatorCall(S, O, f, Print(a), Postfix(a), [], []);
    assert Print(e) == [LeftParen] + Print(a) + [f] + [] + [RightParen];
    assert Postfix(a) + [] == Postfix(a);
    AppendThree(O, Postfix(a), [], [f]);
  }

  /** ( a op b ) */
  lemma {:induction false} ShuntBinaryOperator(e: Expr, S: seq<string>, O: seq<string>)
    requires WellFormed(e) && e.Call? && !IsFunction(e.callee) && |e.args| == 2
    requires S == [] || !IsFunction(Last(S))
    ensures Run(Print(e), State(S, O)) == Ok(State(S, O + Postfix(e)))
    decreases e, 0
  {
    var f, a, b := e.callee, e.args[0], e.args[1];
    Disjoint(LeftParen);
    ShuntPrint(a, State(S + [LeftParen], O));
    Disjoint(f);
    assert Last(S + [LeftParen, f]) == f;
    ShuntPrint(b, State(S + [LeftParen, f], O + Postfix(a)));
    RunOperatorCall(S, O, f, Print(a), Postfix(a), Print(b), Postfix(b));
    assert Print(e) == [LeftParen] + Print(a) + [f] + Print(b) + [RightParen];
    AppendThree(O, Postfix(a), Postfix(b), [f]);
  }

  /** shuntingYard produces the RPN list of a printed expression. */
  lemma ToRpnPrint(e: Expr)
    requires WellFormed(e)
    ensures ToRpn(Print(e)) == Ok(Postfix(e))
  {
    ShuntPrint(e, State([], []));
    assert [] + Postfix(e) == Postfix(e);
  }

  // ---------------------------------------------------------------------------
  // evaluate(List) computes the value of an RPN list.

  /** A callable at the end of an RPN list applies to the values the list leaves on top. */
  lemma EvalApply<V>(pre: seq<string>, f: string, stack: seq<V>, before: seq<V>, sem: Semantics<V>)
    requires IsCallable(f) && ArityOf(f) <= |before|
    requires EvalRpn(pre, stack, sem) == Ok(before)
    ensures EvalRpn(pre + [f], stack, sem) == Ok([sem.apply(f, Arguments(before, ArityOf(f)))] + before[ArityOf(f)..])
  {
    EvalRpnAppend(pre, [f], stack, sem);
    assert [f][0] == f && [f][1..] == [];
  }

  /** One value on top is the argument of a unary callable. */
  lemma TopArguments<V>(d0: V, stack: seq<V>)
    ensures Arguments([d0] + stack, 1) == [d0] && ([d0] + stack)[1..] == stack
  {
  }

  /** Two values on top, the deeper one first, are the arguments of a binary callable. */
  lemma TopTwoArguments<V>(d0: V, d1: V, stack: seq<V>)
    ensures Arguments([d1] + ([d0] + stack), 2) == [d0, d1] && ([d1] + ([d0] + stack))[2..] == stack
  {
    var before := [d1] + ([d0] + stack);
    assert before[0] == d1 && before[1] == d0;
  }

  /** Evaluating the RPN list of e pushes the value of e. */
  lemma {:induction false} EvalPostfix<V>(e: Expr, stack: seq<V>, sem: Semantics<V>)
    requires WellFormed(e)
    ensures EvalRpn(Postfix(e), stack, sem) == Ok([Denote(e, sem)] + stack)
    decreases e
  {
    match e
    case Num(t) =>
      Disjoint(t);
      assert Postfix(e)[1..] == [];
    case Const(c) =>
      Disjoint(c);
      assert Postfix(e)[1..] == [];
    case Call(f, args) =>
      if |args| == 1 {
        EvalPostfixUnary(e, stack, sem);
      } else {
        EvalPostfixBinary(e, stack, sem);
      }
  }

  lemma {:induction false} EvalPostfixUnary<V>(e: Expr, stack: seq<V>, sem: Semantics<V>)
    requires WellFormed(e) && e.Call? && |e.args| == 1
    ensures EvalRpn(Postfix(e), stack, sem) == Ok([Denote(e, sem)] + stack)
    decreases e, 0
  {
    var f, a := e.callee, e.args[0];
    var d0 := Denote(a, sem);
    EvalPostfix(a, stack, sem);
    var before := [d0] + stack;
    TopArguments(d0, stack);
    EvalApply(Postfix(a), f, stack, before, sem);
  }

  lemma {:induction false} EvalPostfixBinary<V>(e: Expr, stack: seq<V>, sem: Semantics<V>)
    requires WellFormed(e) && e.Call? && |e.args| == 2
    ensures EvalRpn(Postfix(e), stack, sem) == Ok([Denote(e, sem)] + stack)
    decreases e, 0
  {
    var f, a, b := e.callee, e.args[0], e.args[1];
    var d0, d1 := Denote(a, sem), Denote(b, sem);
    EvalPostfix(a, stack, sem);
    EvalPostfix(b, [d0] + stack, sem);
    EvalRpnAppend(Postfix(a), Postfix(b), stack, sem);
    var before := [d1] + ([d0] + stack);
    TopTwoArguments(d0, d1, stack);
    EvalApply(Postfix(a) + Postfix(b), f, stack, before, sem);
  }

  /** evaluate(List) on the RPN list of e returns the value of e. */
  lemma RpnValuePostfix<V>(e: Expr, sem: Semantics<V>)
    requires WellFormed(e)
    ensures RpnValue(Postfix(e), sem) == Ok(Denote(e, sem))
  {
    EvalPostfix(e, [], sem);
    assert [Denote(e, sem)] + [] == [Denote(e, sem)];
  }

  // ---------------------------------------------------------------------------
  // The whole pipeline.

  /** evaluate(String) on a fully parenthesised expression returns the value its tree denotes. */
  lemma EvaluatePrint<V>(e: Expr, sem: Semantics<V>)
    requires WellFormed(e)
    ensures ExpressionValue(Print(e), sem) == Ok(Denote(e, sem))
  {
    TokenizePrint(e);
    ToRpnPrint(e);
    RpnValuePostfix(e, sem);
  }

  /** With the tree semantics a well-formed tree denotes itself. */
  lemma {:induction false} DenoteTree(e: Expr)
    requires WellFormed(e)
    ensures Denote(e, TreeSemantics()) == e
    decreases e
  {
    match e
    case Num(_) =>
    case Const(_) =>
    case Call(f, args) =>
      DenoteTree(args[0]);
      if |args| == 2 {
        DenoteTree(args[1]);
        assert args == [args[0], args[1]];
      } else {
        assert args == [args[0]];
      }
  }

  /** Parsing the printed form of a well-formed expression gives the expression back. */
  lemma ParsePrint(e: Expr)
    requires WellFormed(e)
    ensures Parse(Print(e)) == Ok(e)
  {
    EvaluatePrint(e, TreeSemantics());
    DenoteTree(e);
  }
}
