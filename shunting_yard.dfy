/**
 * ExpressionParser.shuntingYard: Dijkstra's shunting-yard conversion of an
 * infix token list into reverse Polish notation, with an explicit operator
 * stack (java.util.Stack: a sequence whose top is its last element) and an
 * output queue.
 */
module ShuntingYard {
  import opened Wrappers
  import opened Seqs
  import opened Errors
  import opened NumberSyntax
  import opened Registry

  /** The converter's state: the operator stack (top last) and the output queue. */
  datatype State = State(stack: seq<string>, out: seq<string>)

  /** The popping rule: the incoming operator o1 sends the operator o2 on top of the stack to the output. */
  predicate Pops(o1: string, o2: string)
    requires IsOperator(o1) && IsOperator(o2)
  {
    PrecedenceOf(o1) < PrecedenceOf(o2) || (IsLeftAssociative(o1) && PrecedenceOf(o1) <= PrecedenceOf(o2))
  }

  /**
   * The inner loop for an incoming operator o1: operators are popped from the
   * top of the stack to the output, topmost first (PopOperatorsStops says
   * which ones).
   */
  function PopOperators(o1: string, stack: seq<string>, out: seq<string>): (r: State)
    requires IsOperator(o1)
    ensures |r.stack| <= |stack| && r.stack == stack[..|r.stack|]
    ensures r.out == out + Reverse(stack[|r.stack|..])
    decreases |stack|
  {
    if stack != [] && IsOperator(Last(stack)) && Pops(o1, Last(stack)) then
      var r := PopOperators(o1, Butlast(stack), out + [Last(stack)]);
      ReverseSuffix(stack, |r.stack|);
      assert stack[..|r.stack|] == Butlast(stack)[..|r.stack|];
      r
    else
      State(stack, out)
  }

  /** Every entry the inner loop pops is an operator that o1 pops. */
  lemma {:induction false} PoppedAreOutranked(o1: string, stack: seq<string>, out: seq<string>)
    requires IsOperator(o1)
    ensures var k := |PopOperators(o1, stack, out).stack|;
      forall j :: k <= j < |stack| ==> IsOperator(stack[j]) && Pops(o1, stack[j])
    decreases |stack|
  {
    if stack != [] && IsOperator(Last(stack)) && Pops(o1, Last(stack)) {
      var b := Butlast(stack);
      var k := |PopOperators(o1, b, out + [Last(stack)]).stack|;
      assert |PopOperators(o1, stack, out).stack| == k;
      PoppedAreOutranked(o1, b, out + [Last(stack)]);
      TopRun(o1, stack, k);
    }
  }

  /** Extending a run of outranked entries by an outranked entry on top. */
  lemma TopRun(o1: string, stack: seq<string>, k: nat)
    requires IsOperator(o1) && stack != [] && k < |stack|
    requires IsOperator(Last(stack)) && Pops(o1, Last(stack))
    requires forall j :: k <= j < |stack| - 1 ==> IsOperator(Butlast(stack)[j]) && Pops(o1, Butlast(stack)[j])
    ensures forall j :: k <= j < |stack| ==> IsOperator(stack[j]) && Pops(o1, stack[j])
  {
    forall j | k <= j < |stack|
      ensures IsOperator(stack[j]) && Pops(o1, stack[j])
    {
      if j < |stack| - 1 {
        assert stack[j] == Butlast(stack)[j];
      }
    }
  }

  /** The inner loop stops at the bottom of the stack or at an entry o1 does not pop. */
  lemma {:induction false} PoppingStops(o1: string, stack: seq<string>, out: seq<string>)
    requires IsOperator(o1)
    ensures var k := |PopOperators(o1, stack, out).stack|;
      k == 0 || !IsOperator(stack[k - 1]) || !Pops(o1, stack[k - 1])
    decreases |stack|
  {
    if stack != [] && IsOperator(Last(stack)) && Pops(o1, Last(stack)) {
      var b := Butlast(stack);
      assert PopOperators(o1, stack, out) == PopOperators(o1, b, out + [Last(stack)]);
      PoppingStops(o1, b, out + [Last(stack)]);
    }
  }

  /**
   * What the inner loop pops is the maximal run of operators on top of the
   * stack that o1 pops: it stops below at the bottom, at a `(`, at a function,
   * or at an operator o1 does not pop.
   */
  lemma PopOperatorsStops(o1: string, stack: seq<string>, out: seq<string>)
    requires IsOperator(o1)
    ensures var k := |PopOperators(o1, stack, out).stack|;
      forall j :: k <= j < |stack| ==> IsOperator(stack[j]) && Pops(o1, stack[j])
    ensures var k := |PopOperators(o1, stack, out).stack|;
      k == 0 || !IsOperator(stack[k - 1]) || !Pops(o1, stack[k - 1])
  {
    PoppedAreOutranked(o1, stack, out);
    PoppingStops(o1, stack, out);
  }

  /**
   * The inner loop for a separator or `)` on a non-empty stack: pop entries to
   * the output until `(` is on top; emptying the stack is the error err.
   */
  function PopWhileNotLeftParen(stack: seq<string>, out: seq<string>, err: Error): (r: Result<State, Error>)
    requires stack != []
    ensures r.Ok? ==> 0 < |r.value.stack| <= |stack| && r.value.stack == stack[..|r.value.stack|]
    ensures r.Ok? ==> Last(r.value.stack) == LeftParen
    ensures r.Err? ==> r.error == err
    decreases |stack|
  {
    if Last(stack) == LeftParen then
      Ok(State(stack, out))
    else if |stack| == 1 then
      Err(err)
    else
      PopWhileNotLeftParen(Butlast(stack), out + [Last(stack)], err)
  }

  /** The loop succeeds exactly when the stack holds a `(`, and stops at the topmost one. */
  lemma {:induction false} PopWhileNotLeftParenSucceeds(stack: seq<string>, out: seq<string>, err: Error)
    requires stack != []
    ensures var r := PopWhileNotLeftParen(stack, out, err);
      && (r.Ok? <==> LeftParen in stack)
      && (r.Ok? ==> LeftParen !in stack[|r.value.stack|..])
    decreases |stack|
  {
    var r := PopWhileNotLeftParen(stack, out, err);
    if Last(stack) != LeftParen {
      if |stack| == 1 {
        assert stack == [Last(stack)];
      } else {
        var b := Butlast(stack);
        assert stack == b + [Last(stack)];
        PopWhileNotLeftParenSucceeds(b, out + [Last(stack)], err);
        if r.Ok? {
          assert stack[|r.value.stack|..] == b[|r.value.stack|..] + [Last(stack)];
        }
      }
    }
  }

  /** What lies above the `(` goes to the output, topmost first. */
  lemma {:induction false} PopWhileNotLeftParenOutput(stack: seq<string>, out: seq<string>, err: Error)
    requires stack != []
    ensures var r := PopWhileNotLeftParen(stack, out, err);
      r.Ok? ==> r.value.out == out + Reverse(stack[|r.value.stack|..])
    decreases |stack|
  {
    var r := PopWhileNotLeftParen(stack, out, err);
    if Last(stack) != LeftParen && |stack| > 1 {
      var b := Butlast(stack);
      PopWhileNotLeftParenOutput(b, out + [Last(stack)], err);
      if r.Ok? {
        var k := |r.value.stack|;
        assert Reverse(stack[k..]) == [Last(stack)] + Reverse(b[k..]) by {
          assert Butlast(stack[k..]) == b[k..];
        }
      }
    }
  }

  /** The same loop entered with a peek: on an empty stack the peek throws first. */
  function PopToLeftParen(stack: seq<string>, out: seq<string>, err: Error): (r: Result<State, Error>)
    ensures r.Ok? ==> 0 < |r.value.stack| <= |stack| && r.value.stack == stack[..|r.value.stack|]
    ensures r.Ok? ==> Last(r.value.stack) == LeftParen
    ensures r.Err? ==> r.error == (if stack == [] then EmptyStack else err)
  {
    if stack == [] then Err(EmptyStack) else PopWhileNotLeftParen(stack, out, err)
  }

  /**
   * The end of a `)`, once `(` is on top: the `(` is discarded, and a function
   * then on top goes to the output.
   */
  function CloseParen(popped: State): State
    requires popped.stack != []
  {
    var rest := Butlast(popped.stack);
    if rest != [] && IsFunction(Last(rest)) then State(Butlast(rest), popped.out + [Last(rest)])
    else State(rest, popped.out)
  }

  /** One iteration of the main loop, on one input token. */
  function Step(t: string, st: State): Result<State, Error> {
    if IsFunction(t) then
      Ok(State(st.stack + [t], st.out))
    else if IsNumber(t) || IsConstant(t) then
      Ok(State(st.stack, st.out + [t]))
    else if IsOperator(t) then
      var popped := PopOperators(t, st.stack, st.out);
      Ok(State(popped.stack + [t], popped.out))
    else if t == FunctionArgumentSeparator then
      PopToLeftParen(st.stack, st.out, MismatchedParenthesesOrComma)
    else if t == LeftParen then
      Ok(State(st.stack + [t], st.out))
    else if t == RightParen then
      match PopToLeftParen(st.stack, st.out, MismatchedParentheses)
      case Err(e) => Err(e)
      case Ok(popped) => Ok(CloseParen(popped))
    else
      Ok(st)
  }

  // Step, one kind of token at a time: unfolding helpers for the proofs below.

  lemma StepFunction(t: string, st: State)
    requires IsFunction(t)
    ensures Step(t, st) == Ok(State(st.stack + [t], st.out))
  {
  }

  lemma StepOperand(t: string, st: State)
    requires IsOperand(t)
    ensures Step(t, st) == Ok(State(st.stack, st.out + [t]))
  {
    Disjoint(t);
  }

  lemma StepOperator(t: string, st: State)
    requires IsOperator(t)
    ensures Step(t, st) == Ok(State(PopOperators(t, st.stack, st.out).stack + [t], PopOperators(t, st.stack, st.out).out))
  {
    Disjoint(t);
  }

  lemma StepSeparator(st: State)
    ensures Step(FunctionArgumentSeparator, st) == PopToLeftParen(st.stack, st.out, MismatchedParenthesesOrComma)
  {
    Disjoint(FunctionArgumentSeparator);
  }

  lemma StepLeftParen(st: State)
    ensures Step(LeftParen, st) == Ok(State(st.stack + [LeftParen], st.out))
  {
    Disjoint(LeftParen);
  }

  lemma StepRightParen(st: State)
    ensures Step(RightParen, st) ==
      match PopToLeftParen(st.stack, st.out, MismatchedParentheses)
      case Err(e) => Err(e)
      case Ok(popped) => Ok(CloseParen(popped))
  {
    Disjoint(RightParen);
  }

  // Step, described without the loops that compute it.

  /** i is the position of the topmost `(` on the stack. */
  predicate TopmostLeftParen(stack: seq<string>, i: int) {
    0 <= i < |stack| && stack[i] == LeftParen && LeftParen !in stack[i + 1..]
  }

  /** The unwinding loop stops at the topmost `(` and sends what lies above it to the output. */
  lemma PopToTopmostLeftParen(stack: seq<string>, out: seq<string>, err: Error, i: int)
    requires TopmostLeftParen(stack, i)
    ensures PopToLeftParen(stack, out, err) == Ok(State(stack[..i + 1], out + Reverse(stack[i + 1..])))
  {
    PopWhileNotLeftParenSucceeds(stack, out, err);
    PopWhileNotLeftParenOutput(stack, out, err);
    var k := |PopToLeftParen(stack, out, err).value.stack|;
    assert stack[k - 1] == LeftParen;
  }

  /**
   * A step fails exactly on a `,` or a `)` with no `(` on the stack: with
   * EmptyStack when the stack is empty, and otherwise with the error of the
   * token's unwinding loop.
   */
  lemma StepFails(t: string, st: State)
    ensures Step(t, st).Err? <==> (t == FunctionArgumentSeparator || t == RightParen) && LeftParen !in st.stack
    ensures Step(t, st).Err? ==>
      Step(t, st).error == (if st.stack == [] then EmptyStack
                            else if t == FunctionArgumentSeparator then MismatchedParenthesesOrComma
                            else MismatchedParentheses)
  {
    Disjoint(t);
    if st.stack != [] {
      PopWhileNotLeftParenSucceeds(st.stack, st.out, MismatchedParenthesesOrComma);
      PopWhileNotLeftParenSucceeds(st.stack, st.out, MismatchedParentheses);
    }
  }

  /**
   * An operator t pops the longest run of operators on top of the stack that
   * it outranks (PopOperatorsStops), moves them to the output topmost first,
   * and is pushed in their place.
   */
  lemma OperatorPops(t: string, st: State)
    requires IsOperator(t)
    ensures Step(t, st).Ok?
    ensures var r := Step(t, st).value; var k := |r.stack| - 1;
      && 0 <= k <= |st.stack| && r.stack == st.stack[..k] + [t]
      && r.out == st.out + Reverse(st.stack[k..])
      && (forall j :: k <= j < |st.stack| ==> IsOperator(st.stack[j]) && Pops(t, st.stack[j]))
      && (k == 0 || !IsOperator(st.stack[k - 1]) || !Pops(t, st.stack[k - 1]))
  {
    StepOperator(t, st);
    PopOperatorsStops(t, st.stack, st.out);
  }

  /**
   * A `,` with a `(` on the stack pops everything above the topmost `(` to
   * the output, topmost first, and leaves that `(` on top.
   */
  lemma SeparatorUnwinds(st: State, i: int)
    requires TopmostLeftParen(st.stack, i)
    ensures Step(FunctionArgumentSeparator, st) == Ok(State(st.stack[..i + 1], st.out + Reverse(st.stack[i + 1..])))
  {
    StepSeparator(st);
    PopToTopmostLeftParen(st.stack, st.out, MismatchedParenthesesOrComma, i);
  }

  /**
   * A `)` with a `(` on the stack pops everything above the topmost `(` to
   * the output, topmost first, and discards that `(`; a function name right
   * below it follows to the output (CloseParen).
   */
  lemma RightParenCloses(st: State, i: int)
    requires TopmostLeftParen(st.stack, i)
    ensures var popped := st.out + Reverse(st.stack[i + 1..]);
      Step(RightParen, st) ==
        if i > 0 && IsFunction(st.stack[i - 1]) then Ok(State(st.stack[..i - 1], popped + [st.stack[i - 1]]))
        else Ok(State(st.stack[..i], popped))
  {
    StepRightParen(st);
    PopToTopmostLeftParen(st.stack, st.out, MismatchedParentheses, i);
    assert Butlast(st.stack[..i + 1]) == st.stack[..i];
    if i > 0 {
      assert Butlast(st.stack[..i]) == st.stack[..i - 1];
    }
  }

  /** The main loop over the input tokens. */
  function Run(tokens: seq<string>, st: State): Result<State, Error>
    decreases |tokens|
  {
    if tokens == [] then Ok(st)
    else match Step(tokens[0], st)
      case Err(e) => Err(e)
      case Ok(next) => Run(tokens[1..], next)
  }

  /** Running a list of tokens is stepping the first, then running the rest. */
  lemma RunCons(t: string, rest: seq<string>, st: State)
    ensures Step(t, st).Err? ==> Run([t] + rest, st) == Err(Step(t, st).error)
    ensures Step(t, st).Ok? ==> Run([t] + rest, st) == Run(rest, Step(t, st).value)
  {
    assert ([t] + rest)[0] == t && ([t] + rest)[1..] == rest;
  }

  /** A successful step followed by the run of the rest. */
  lemma StepThenRun(t: string, rest: seq<string>, st: State, next: State, final: Result<State, Error>)
    requires Step(t, st) == Ok(next) && Run(rest, next) == final
    ensures Run([t] + rest, st) == final
  {
    RunCons(t, rest, st);
  }

  /** A successful run followed by the run of what comes after it. */
  lemma RunThenRun(a: seq<string>, b: seq<string>, st: State, mid: State, final: Result<State, Error>)
    requires Run(a, st) == Ok(mid) && Run(b, mid) == final
    ensures Run(a + b, st) == final
  {
    RunAppend(a, b, st);
  }

  /** Running two lists one after the other is running their concatenation. */
  lemma {:induction false} RunAppend(a: seq<string>, b: seq<string>, st: State)
    ensures Run(a + b, st) == match Run(a, st) case Err(e) => Err(e) case Ok(mid) => Run(b, mid)
    decreases |a|
  {
    if a == [] {
      assert a + b == b;
    } else {
      assert (a + b)[0] == a[0] && (a + b)[1..] == a[1..] + b;
      var r := Step(a[0], st);
      if r.Ok? {
        RunAppend(a[1..], b, r.value);
      }
    }
  }

  /** A token the loop recognises: it is either pushed, emitted or acted upon. */
  predicate Recognised(t: string) {
    IsCallable(t) || IsOperand(t) || t == FunctionArgumentSeparator || t == LeftParen || t == RightParen
  }

  /** The recognised tokens of s, in order. */
  function RecognisedOnly(s: seq<string>): (r: seq<string>)
    ensures forall t :: t in r ==> Recognised(t)
  {
    if s == [] then [] else (if Recognised(s[0]) then [s[0]] else []) + RecognisedOnly(s[1..])
  }

  /** A token of no recognised kind leaves the state as it is, wherever it occurs. */
  lemma {:induction false} RunSkipsUnrecognised(tokens: seq<string>, st: State)
    ensures Run(tokens, st) == Run(RecognisedOnly(tokens), st)
    decreases |tokens|
  {
    if tokens != [] {
      var t := tokens[0];
      var rest := RecognisedOnly(tokens[1..]);
      if Recognised(t) {
        RunCons(t, rest, st);
        var r := Step(t, st);
        if r.Ok? {
          RunSkipsUnrecognised(tokens[1..], r.value);
        }
      } else {
        assert Step(t, st) == Ok(st);
        assert RecognisedOnly(tokens) == rest;
        RunSkipsUnrecognised(tokens[1..], st);
      }
    }
  }

  /** shuntingYard ignores every token it does not recognise. */
  lemma ToRpnSkipsUnrecognised(tokens: seq<string>)
    ensures ToRpn(tokens) == ToRpn(RecognisedOnly(tokens))
  {
    RunSkipsUnrecognised(tokens, State([], []));
  }

  /** The final loop: the stack is emptied onto the output, topmost first; a parenthesis left over is an error. */
  function Drain(stack: seq<string>, out: seq<string>): (r: Result<seq<string>, Error>)
    ensures r.Ok? <==> LeftParen !in stack && RightParen !in stack
    ensures r.Ok? ==> r.value == out + Reverse(stack)
    ensures r.Err? ==> r.error == MismatchedParentheses
    decreases |stack|
  {
    if stack == [] then Ok(out)
    else if IsGroupingOperator(Last(stack)) then Err(MismatchedParentheses)
    else
      assert stack == Butlast(stack) + [Last(stack)];
      Drain(Butlast(stack), out + [Last(stack)])
  }

  /** The conversion of the remaining tokens from a given state. */
  function Resume(tokens: seq<string>, st: State): Result<seq<string>, Error> {
    match Run(tokens, st)
    case Err(e) => Err(e)
    case Ok(end) => Drain(end.stack, end.out)
  }

  /** Converting the remaining tokens is stepping the first, then converting the rest. */
  lemma ResumeCons(t: string, rest: seq<string>, st: State)
    ensures Step(t, st).Err? ==> Resume([t] + rest, st) == Err(Step(t, st).error)
    ensures Step(t, st).Ok? ==> Resume([t] + rest, st) == Resume(rest, Step(t, st).value)
  {
    RunCons(t, rest, st);
  }

  /** What shuntingYard returns (Ok) or throws (Err). */
  function ToRpn(tokens: seq<string>): Result<seq<string>, Error> {
    Resume(tokens, State([], []))
  }

  /** shuntingYard as the source runs it. */
  method ShuntingYard(tokens: seq<string>) returns (r: Result<seq<string>, Error>)
    ensures r == ToRpn(tokens)
  {
    var outputQueue: seq<string> := [];
    var stack: seq<string> := [];
    for i := 0 to |tokens|
      invariant Resume(tokens[i..], State(stack, outputQueue)) == ToRpn(tokens)
    {
      var token := tokens[i];
      ghost var st := State(stack, outputQueue);
      assert tokens[i..] == [token] + tokens[i + 1..];
      ResumeCons(token, tokens[i + 1..], st);
      Disjoint(token);
      if IsFunction(token) {
        StepFunction(token, st);
        stack := stack + [token];
      } else if IsNumber(token) || IsConstant(token) {
        StepOperand(token, st);
        outputQueue := outputQueue + [token];
      } else if IsOperator(token) {
        StepOperator(token, st);
        while stack != [] && IsOperator(Last(stack))
          invariant PopOperators(token, stack, outputQueue) == PopOperators(token, st.stack, st.out)
          decreases |stack|
        {
          var o2 := Last(stack);
          if Pops(token, o2) {
            stack := Butlast(stack);
            outputQueue := outputQueue + [o2];
          } else {
            break;
          }
        }
        stack := stack + [token];
      } else if token == FunctionArgumentSeparator {
        StepSeparator(st);
        if stack == [] {
          return Err(EmptyStack);
        }
        while Last(stack) != LeftParen
          invariant stack != []
          invariant PopWhileNotLeftParen(stack, outputQueue, MismatchedParenthesesOrComma)
                 == PopWhileNotLeftParen(st.stack, st.out, MismatchedParenthesesOrComma)
          decreases |stack|
        {
          var stackToken := Last(stack);
          stack := Butlast(stack);
          outputQueue := outputQueue + [stackToken];
          if stack == [] {
            return Err(MismatchedParenthesesOrComma);
          }
        }
      } else if token == LeftParen {
        StepLeftParen(st);
        stack := stack + [token];
      } else if token == RightParen {
        StepRightParen(st);
        if stack == [] {
          return Err(EmptyStack);
        }
        while Last(stack) != LeftParen
          invariant stack != []
          invariant PopWhileNotLeftParen(stack, outputQueue, MismatchedParentheses)
                 == PopWhileNotLeftParen(st.stack, st.out, MismatchedParentheses)
          decreases |stack|
        {
          var stackToken := Last(stack);
          stack := Butlast(stack);
          outputQueue := outputQueue + [stackToken];
          if stack == [] {
            return Err(MismatchedParentheses);
          }
        }
        stack := Butlast(stack);
        if stack != [] && IsFunction(Last(stack)) {
          var stackToken := Last(stack);
          stack := Butlast(stack);
          outputQueue := outputQueue + [stackToken];
        }
      }
    }
    while stack != []
      invariant Drain(stack, outputQueue) == ToRpn(tokens)
      decreases |stack|
    {
      var stackToken := Last(stack);
      stack := Butlast(stack);
      if IsGroupingOperator(stackToken) {
        return Err(MismatchedParentheses);
      }
      outputQueue := outputQueue + [stackToken];
    }
    return Ok(outputQueue);
  }

  /** The number and constant tokens of s, in order. */
  function Operands(s: seq<string>): seq<string>
    decreases |s|
  {
    if s == [] then [] else Operands(Butlast(s)) + (if IsOperand(Last(s)) then [Last(s)] else [])
  }

  /** The function and operator tokens of s, in order. */
  function Callables(s: seq<string>): seq<string>
    decreases |s|
  {
    if s == [] then [] else Callables(Butlast(s)) + (if IsCallable(Last(s)) then [Last(s)] else [])
  }

  lemma Snoc(s: seq<string>, t: string)
    ensures Butlast(s + [t]) == s && Last(s + [t]) == t
  {
  }

  /**
   * The bookkeeping invariant of the conversion, after the tokens `consumed`:
   * the stack holds only callables and `(`, the output only callables and
   * operands; every callable consumed is in the output or on the stack, once;
   * the operands consumed are in the output, in input order.
   */
  ghost predicate Accounted(consumed: seq<string>, st: State) {
    && (forall t :: t in st.stack ==> IsCallable(t) || t == LeftParen)
    && (forall t :: t in st.out ==> IsCallable(t) || IsOperand(t))
    && multiset(Callables(consumed)) == multiset(Callables(st.out)) + multiset(Callables(st.stack))
    && Operands(st.out) == Operands(consumed)
  }

  /** Moving the top callable of the stack to the output keeps the bookkeeping. */
  lemma MoveTop(consumed: seq<string>, st: State)
    requires Accounted(consumed, st) && st.stack != [] && IsCallable(Last(st.stack))
    ensures Accounted(consumed, State(Butlast(st.stack), st.out + [Last(st.stack)]))
  {
    var x := Last(st.stack);
    Disjoint(x);
    Snoc(st.out, x);
    assert st.stack == Butlast(st.stack) + [x];
    assert forall t :: t in Butlast(st.stack) ==> t in st.stack;
  }

  lemma {:induction false} PopOperatorsAccounted(consumed: seq<string>, o1: string, st: State)
    requires Accounted(consumed, st) && IsOperator(o1)
    ensures Accounted(consumed, PopOperators(o1, st.stack, st.out))
    decreases |st.stack|
  {
    if st.stack != [] && IsOperator(Last(st.stack)) && Pops(o1, Last(st.stack)) {
      MoveTop(consumed, st);
      PopOperatorsAccounted(consumed, o1, State(Butlast(st.stack), st.out + [Last(st.stack)]));
    }
  }

  lemma {:induction false} PopWhileNotLeftParenAccounted(consumed: seq<string>, st: State, err: Error)
    requires Accounted(consumed, st) && st.stack != []
    ensures var r := PopWhileNotLeftParen(st.stack, st.out, err); r.Ok? ==> Accounted(consumed, r.value)
    decreases |st.stack|
  {
    if Last(st.stack) != LeftParen && |st.stack| > 1 {
      assert Last(st.stack) in st.stack;
      MoveTop(consumed, st);
      PopWhileNotLeftParenAccounted(consumed, State(Butlast(st.stack), st.out + [Last(st.stack)]), err);
    }
  }

  lemma PushAccounted(consumed: seq<string>, t: string, st: State)
    requires Accounted(consumed, st) && (IsCallable(t) || t == LeftParen)
    ensures Accounted(consumed + [t], State(st.stack + [t], st.out))
  {
    Disjoint(t);
    Disjoint(LeftParen);
    Snoc(consumed, t);
    Snoc(st.stack, t);
  }

  lemma EmitAccounted(consumed: seq<string>, t: string, st: State)
    requires Accounted(consumed, st) && IsOperand(t)
    ensures Accounted(consumed + [t], State(st.stack, st.out + [t]))
  {
    Disjoint(t);
    Snoc(consumed, t);
    Snoc(st.out, t);
  }

  lemma SkipAccounted(consumed: seq<string>, t: string, st: State)
    requires Accounted(consumed, st) && !IsCallable(t) && !IsOperand(t)
    ensures Accounted(consumed + [t], st)
  {
    Snoc(consumed, t);
  }

  lemma OperatorAccounted(consumed: seq<string>, t: string, st: State)
    requires Accounted(consumed, st) && IsOperator(t)
    ensures var p := PopOperators(t, st.stack, st.out); Accounted(consumed + [t], State(p.stack + [t], p.out))
  {
    PopOperatorsAccounted(consumed, t, st);
    var p := PopOperators(t, st.stack, st.out);
    PushAccounted(consumed, t, p);
  }

  /** Discarding a `(` from the top of the stack keeps the bookkeeping. */
  lemma DropLeftParenAccounted(consumed: seq<string>, p: State)
    requires Accounted(consumed, p) && p.stack != [] && Last(p.stack) == LeftParen
    ensures Accounted(consumed, State(Butlast(p.stack), p.out))
  {
    Disjoint(LeftParen);
    var rest := Butlast(p.stack);
    assert p.stack == rest + [LeftParen];
    assert Callables(p.stack) == Callables(rest);
    assert forall u :: u in rest ==> u in p.stack;
  }

  lemma CloseParenAccounted(consumed: seq<string>, p: State)
    requires Accounted(consumed, p) && p.stack != [] && Last(p.stack) == LeftParen
    ensures Accounted(consumed + [RightParen], CloseParen(p))
  {
    Disjoint(RightParen);
    var rest := Butlast(p.stack);
    DropLeftParenAccounted(consumed, p);
    SkipAccounted(consumed, RightParen, State(rest, p.out));
    if rest != [] && IsFunction(Last(rest)) {
      MoveTop(consumed + [RightParen], State(rest, p.out));
    }
  }

  lemma RightParenAccounted(consumed: seq<string>, st: State)
    requires Accounted(consumed, st) && PopToLeftParen(st.stack, st.out, MismatchedParentheses).Ok?
    ensures Accounted(consumed + [RightParen], CloseParen(PopToLeftParen(st.stack, st.out, MismatchedParentheses).value))
  {
    PopWhileNotLeftParenAccounted(consumed, st, MismatchedParentheses);
    CloseParenAccounted(consumed, PopToLeftParen(st.stack, st.out, MismatchedParentheses).value);
  }

  lemma StepAccounted(consumed: seq<string>, t: string, st: State)
    requires Accounted(consumed, st) && Step(t, st).Ok?
    ensures Accounted(consumed + [t], Step(t, st).value)
  {
    Disjoint(t);
    if IsFunction(t) {
      PushAccounted(consumed, t, st);
    } else if IsNumber(t) || IsConstant(t) {
      EmitAccounted(consumed, t, st);
    } else if IsOperator(t) {
      OperatorAccounted(consumed, t, st);
    } else if t == FunctionArgumentSeparator {
      PopWhileNotLeftParenAccounted(consumed, st, MismatchedParenthesesOrComma);
      SkipAccounted(consumed, t, Step(t, st).value);
    } else if t == LeftParen {
      PushAccounted(consumed, t, st);
    } else if t == RightParen {
      RightParenAccounted(consumed, st);
    } else {
      SkipAccounted(consumed, t, st);
    }
  }

  /** A property of (tokens read, state) that every successful step keeps is kept by the main loop. */
  lemma {:induction false} RunKeeps(inv: (seq<string>, State) -> bool, consumed: seq<string>, tokens: seq<string>, st: State)
    requires forall c, t, s :: inv(c, s) && Step(t, s).Ok? ==> inv(c + [t], Step(t, s).value)
    requires inv(consumed, st) && Run(tokens, st).Ok?
    ensures inv(consumed + tokens, Run(tokens, st).value)
    decreases |tokens|
  {
    if tokens == [] {
      assert consumed + tokens == consumed;
    } else {
      var t, rest := tokens[0], tokens[1..];
      RunCons(t, rest, st);
      assert tokens == [t] + rest;
      RunKeeps(inv, consumed + [t], rest, Step(t, st).value);
      assert consumed + [t] + rest == consumed + tokens;
    }
  }

  lemma RunAccounted(consumed: seq<string>, tokens: seq<string>, st: State)
    requires Accounted(consumed, st) && Run(tokens, st).Ok?
    ensures Accounted(consumed + tokens, Run(tokens, st).value)
  {
    forall c, t, s | Accounted(c, s) && Step(t, s).Ok?
      ensures Accounted(c + [t], Step(t, s).value)
    {
      StepAccounted(c, t, s);
    }
    RunKeeps((c, s) => Accounted(c, s), consumed, tokens, st);
  }

  lemma {:induction false} DrainAccounted(consumed: seq<string>, st: State)
    requires Accounted(consumed, st) && Drain(st.stack, st.out).Ok?
    ensures Accounted(consumed, State([], Drain(st.stack, st.out).value))
    decreases |st.stack|
  {
    if st.stack != [] {
      assert Last(st.stack) in st.stack;
      MoveTop(consumed, st);
      DrainAccounted(consumed, State(Butlast(st.stack), st.out + [Last(st.stack)]));
    }
  }

  /**
   * A successful conversion outputs no parenthesis and no separator; it
   * outputs every function and operator token of the input exactly once, and
   * every number and constant token of the input exactly once and in input
   * order. Tokens of no recognised kind are dropped.
   */
  lemma ToRpnKeepsTokens(tokens: seq<string>)
    requires ToRpn(tokens).Ok?
    ensures var rpn := ToRpn(tokens).value;
      && (forall t :: t in rpn ==> IsCallable(t) || IsOperand(t))
      && LeftParen !in rpn && RightParen !in rpn && FunctionArgumentSeparator !in rpn
      && multiset(Callables(rpn)) == multiset(Callables(tokens))
      && Operands(rpn) == Operands(tokens)
  {
    var start := State([], []);
    assert Accounted([], start);
    RunAccounted([], tokens, start);
    assert [] + tokens == tokens;
    var end := Run(tokens, start).value;
    DrainAccounted(tokens, end);
    Disjoint(LeftParen);
    Disjoint(RightParen);
    Disjoint(FunctionArgumentSeparator);
  }
}
