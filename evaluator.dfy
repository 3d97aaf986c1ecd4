/**
 * ExpressionParser.evaluate(List): the RPN list is scanned once with a
 * LinkedList of operand values whose head is the top. A number or constant
 * is pushed; a function or operator pops its arguments (the deepest one
 * becomes the first argument), is applied, and its value is pushed.
 *
 * The values themselves are left open: a Semantics says how a number token is
 * parsed, what a constant stands for and what a callable computes. Everything
 * the evaluator decides (which token does what, how many values it takes and
 * in which order, when it fails) is independent of that choice.
 */
module Evaluator {
  import opened Wrappers
  import opened Seqs
  import opened Errors
  import opened NumberSyntax
  import opened Functions
  import opened Registry

  /** Double.parseDouble, getConstant, and Function.apply for each registered token. */
  datatype Semantics<!V> = Semantics(number: string -> V, constant: string -> V, apply: (string, seq<V>) -> V)

  /**
   * The arguments a callable of arity k receives from an operand stack whose
   * head is the top: the k topmost values, the deepest of them first.
   */
  function Arguments<V>(stack: seq<V>, k: nat): (args: seq<V>)
    requires k <= |stack|
    ensures |args| == k
    ensures forall i :: 0 <= i < k ==> args[i] == stack[k - 1 - i]
  {
    Reverse(stack[..k])
  }

  /** One token of the RPN list against the operand stack. */
  function EvalToken<V>(t: string, stack: seq<V>, sem: Semantics<V>): (r: Result<seq<V>, Error>)
    ensures r.Ok? <==> IsOperand(t) || (IsCallable(t) && ArityOf(t) <= |stack|)
    ensures r.Err? ==> r.error == (if IsCallable(t) then NoSuchElement else InvalidToken(t))
    ensures r.Ok? && IsCallable(t) ==>
      ArityOf(t) <= |stack| && |r.value| == |stack| - ArityOf(t) + 1 && r.value[1..] == stack[ArityOf(t)..] &&
      r.value[0] == sem.apply(t, Arguments(stack, ArityOf(t)))
    ensures r.Ok? && IsNumber(t) ==> r.value == [sem.number(t)] + stack
    ensures r.Ok? && IsConstant(t) ==> r.value == [sem.constant(t)] + stack
  {
    Disjoint(t);
    if IsCallable(t) then
      var k := ArityOf(t);
      if |stack| < k then Err(NoSuchElement)
      else Ok([sem.apply(t, Arguments(stack, k))] + stack[k..])
    else if IsNumber(t) then Ok([sem.number(t)] + stack)
    else if IsConstant(t) then Ok([sem.constant(t)] + stack)
    else Err(InvalidToken(t))
  }

  /** The scan loop from a given operand stack. */
  function EvalRpn<V>(rpn: seq<string>, stack: seq<V>, sem: Semantics<V>): Result<seq<V>, Error>
    decreases |rpn|
  {
    if rpn == [] then Ok(stack)
    else match EvalToken(rpn[0], stack, sem)
      case Err(e) => Err(e)
      case Ok(next) => EvalRpn(rpn[1..], next, sem)
  }

  /** After the scan: more than one value left is an error, and so is none (the final pop). */
  function Single<V>(stack: seq<V>): (r: Result<V, Error>)
    ensures r.Ok? <==> |stack| == 1
    ensures r.Ok? ==> r.value == stack[0]
    ensures r.Err? ==> r.error == if stack == [] then NoSuchElement else MultipleValues(|stack|)
  {
    if |stack| > 1 then Err(MultipleValues(|stack|))
    else if stack == [] then Err(NoSuchElement)
    else Ok(stack[0])
  }

  /** The value of the remaining RPN tokens from a given operand stack. */
  function ResumeValue<V>(rpn: seq<string>, stack: seq<V>, sem: Semantics<V>): Result<V, Error> {
    match EvalRpn(rpn, stack, sem)
    case Err(e) => Err(e)
    case Ok(end) => Single(end)
  }

  /** What evaluate(List) returns (Ok) or throws (Err). */
  function RpnValue<V>(rpn: seq<string>, sem: Semantics<V>): Result<V, Error> {
    ResumeValue(rpn, [], sem)
  }

  /** A callable token either finds too few values or replaces its arguments by one value. */
  lemma EvalCallable<V>(t: string, stack: seq<V>, sem: Semantics<V>)
    requires IsCallable(t)
    ensures EvalToken(t, stack, sem) ==
      if |stack| < ArityOf(t) then Err(NoSuchElement)
      else Ok([sem.apply(t, Arguments(stack, ArityOf(t)))] + stack[ArityOf(t)..])
  {
    Disjoint(t);
  }

  /**
   * The countdown loop of evaluate(List): numArgs values are popped into an
   * array, filled from its last slot down to its first; popping an empty stack
   * fails. The array then holds the arguments deepest first.
   */
  method PopArguments<V(0)>(numArgs: nat, arguments: seq<V>) returns (args: Option<seq<V>>, rest: seq<V>)
    ensures args.Some? <==> numArgs <= |arguments|
    ensures args.Some? ==> args.value == Arguments(arguments, numArgs) && rest == arguments[numArgs..]
  {
    var a := new V[numArgs];
    rest := arguments;
    var i := numArgs - 1;
    while i >= 0
      invariant -1 <= i < numArgs
      invariant numArgs - 1 - i <= |arguments|
      invariant rest == arguments[numArgs - 1 - i..]
      invariant forall j :: i < j < numArgs ==> a[j] == arguments[numArgs - 1 - j]
      decreases i
    {
      if rest == [] {
        return None, rest;
      }
      a[i] := rest[0];
      rest := rest[1..];
      i := i - 1;
    }
    assert a[..] == Arguments(arguments, numArgs);
    return Some(a[..]), rest;
  }

  /**
   * The body of evaluate(List) for a function or operator: numberOfArguments
   * values are popped (PopArguments), the callable is applied to them, and the
   * value is pushed.
   */
  method PopAndApply<V(0)>(token: string, callable: Callable, arguments: seq<V>, sem: Semantics<V>)
    returns (r: Result<seq<V>, Error>)
    requires IsCallable(token) && callable == Lookup(token)
    ensures r == EvalToken(token, arguments, sem)
  {
    EvalCallable(token, arguments, sem);
    var numArgs := callable.numberOfArguments;
    assert numArgs == ArityOf(token);
    var args, rest := PopArguments(numArgs, arguments);
    if args.None? {
      return Err(NoSuchElement);
    }
    var value := sem.apply(token, args.value);
    return Ok([value] + rest);
  }

  /** evaluate(List) as the source runs it. */
  method EvaluateRpn<V(0)>(rpnTokens: seq<string>, sem: Semantics<V>) returns (r: Result<V, Error>)
    ensures r == RpnValue(rpnTokens, sem)
  {
    var arguments: seq<V> := [];
    for n := 0 to |rpnTokens|
      invariant ResumeValue(rpnTokens[n..], arguments, sem) == RpnValue(rpnTokens, sem)
    {
      var token := rpnTokens[n];
      assert rpnTokens[n..][1..] == rpnTokens[n + 1..];
      Disjoint(token);
      var callable: Option<Callable> := None;
      if IsFunction(token) {
        callable := Some(FunctionTable[token]);
      } else if IsOperator(token) {
        callable := Some(OperatorTable[token]);
      } else if IsNumber(token) {
        arguments := [sem.number(token)] + arguments;
      } else if IsConstant(token) {
        arguments := [sem.constant(token)] + arguments;
      } else {
        return Err(InvalidToken(token));
      }

      if callable.Some? {
        var applied := PopAndApply(token, callable.value, arguments, sem);
        if applied.Err? {
          return Err(applied.error);
        }
        arguments := applied.value;
      }
    }

    if |arguments| > 1 {
      return Err(MultipleValues(|arguments|));
    }
    if arguments == [] {
      return Err(NoSuchElement);
    }
    return Ok(arguments[0]);
  }

  /**
   * How deep the operand stack is after the remaining tokens, judged from the
   * tokens' kinds alone; None when a callable would find too few values or a
   * token is not recognised.
   */
  function Height(rpn: seq<string>, h: nat): Option<nat>
    decreases |rpn|
  {
    if rpn == [] then Some(h)
    else if IsCallable(rpn[0]) then
      if h < ArityOf(rpn[0]) then None else Height(rpn[1..], h - ArityOf(rpn[0]) + 1)
    else if IsOperand(rpn[0]) then Height(rpn[1..], h + 1)
    else None
  }

  /**
   * Whether the scan succeeds, and how many values it leaves, does not depend
   * on the Semantics: it is the stack height computed from the tokens alone.
   */
  lemma {:induction false} EvalRpnHeight<V>(rpn: seq<string>, stack: seq<V>, sem: Semantics<V>)
    ensures EvalRpn(rpn, stack, sem).Ok? <==> Height(rpn, |stack|).Some?
    ensures EvalRpn(rpn, stack, sem).Ok? ==> |EvalRpn(rpn, stack, sem).value| == Height(rpn, |stack|).value
    decreases |rpn|
  {
    if rpn != [] {
      var r := EvalToken(rpn[0], stack, sem);
      if r.Ok? {
        EvalRpnHeight(rpn[1..], r.value, sem);
      }
    }
  }

  /** evaluate(List) succeeds exactly on the lists that leave one value behind. */
  lemma RpnValueSucceeds<V>(rpn: seq<string>, sem: Semantics<V>)
    ensures RpnValue(rpn, sem).Ok? <==> Height(rpn, 0) == Some(1)
  {
    EvalRpnHeight(rpn, [], sem);
  }

  /** Running two lists one after the other is running their concatenation. */
  lemma {:induction false} EvalRpnAppend<V>(a: seq<string>, b: seq<string>, stack: seq<V>, sem: Semantics<V>)
    ensures EvalRpn(a + b, stack, sem) ==
      match EvalRpn(a, stack, sem)
      case Err(e) => Err(e)
      case Ok(mid) => EvalRpn(b, mid, sem)
    decreases |a|
  {
    if a == [] {
      assert a + b == b;
    } else {
      assert (a + b)[0] == a[0] && (a + b)[1..] == a[1..] + b;
      var r := EvalToken(a[0], stack, sem);
      if r.Ok? {
        EvalRpnAppend(a[1..], b, r.value, sem);
      }
    }
  }
}
