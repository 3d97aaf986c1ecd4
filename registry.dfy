/**
 * The static tables of ExpressionParser (supportedFunctions, supportedOperators,
 * supportedConstants) and its is- and get- lookups. The tables are built once and
 * never change, so they are constants. Constant VALUES (Math.PI, Math.E) are
 * not part of the table here: evaluation receives them from its Semantics.
 */
module Registry {
  import opened Wrappers
  import opened Functions
  import opened NumberSyntax

  const FunctionArgumentSeparator: string := ","
  const LeftParen: string := "("
  const RightParen: string := ")"

  /** name -> function; the arities are those passed by each subclass to the Function constructor */
  const FunctionTable: map<string, Callable> := map[
    "abs" := Function(Some("abs"), 1),
    "min" := Function(Some("min"), 2),
    "max" := Function(Some("max"), 2),
    "floor" := Function(Some("floor"), 1),
    "ceil" := Function(Some("ceil"), 1),
    "round" := Function(Some("round"), 1)]

  /** symbol -> operator; precedences from the table, arity and associativity from each subclass */
  const OperatorTable: map<string, Callable> := map[
    "+" := Operator(Some("+"), 2, 1, Left),
    "-" := Operator(Some("-"), 2, 1, Left),
    "*" := Operator(Some("*"), 2, 3, Left),
    "/" := Operator(Some("/"), 2, 3, Left),
    "%" := Operator(Some("%"), 2, 3, Left),
    "^" := Operator(Some("^"), 2, 5, Right),
    "!" := Operator(Some("!"), 1, 7, Right)]

  const ConstantNames: set<string> := {"pi", "e"}

  predicate IsFunction(t: string) {
    t in FunctionTable
  }

  predicate IsOperator(t: string) {
    t in OperatorTable
  }

  predicate IsConstant(t: string) {
    t in ConstantNames
  }

  /** token.matches("[()]") */
  predicate IsGroupingOperator(t: string) {
    t == LeftParen || t == RightParen
  }

  /** A token evaluation applies: a function or an operator. */
  predicate IsCallable(t: string) {
    IsFunction(t) || IsOperator(t)
  }

  /** A token evaluation pushes as a value: a number or a constant. */
  predicate IsOperand(t: string) {
    IsNumber(t) || IsConstant(t)
  }

  /** getFunction, or getOperator when the token is no function: the callable a token names. */
  function Lookup(t: string): (c: Callable)
    requires IsCallable(t)
    ensures c.token == Some(t)
    ensures IsOperator(t) <==> c.Operator?
  {
    if IsFunction(t) then FunctionTable[t] else OperatorTable[t]
  }

  /** getNumberOfArguments of the callable a token names: 1 or 2 in this registry. */
  function ArityOf(t: string): (k: nat)
    requires IsCallable(t)
    ensures k == Lookup(t).numberOfArguments
    ensures k == 1 || k == 2
  {
    Lookup(t).numberOfArguments
  }

  function PrecedenceOf(t: string): int
    requires IsOperator(t)
  {
    OperatorTable[t].precedence
  }

  predicate IsLeftAssociative(t: string)
    requires IsOperator(t)
  {
    OperatorTable[t].IsLeftAssociative()
  }

  /**
   * The name spaces do not overlap: no token is two of function, operator,
   * number and constant, and none of them is a parenthesis or the separator.
   */
  lemma Disjoint(t: string)
    ensures !(IsFunction(t) && IsOperator(t))
    ensures IsOperand(t) ==> !IsCallable(t)
    ensures IsNumber(t) ==> !IsConstant(t)
    ensures IsCallable(t) || IsOperand(t) ==> t != LeftParen && t != RightParen && t != FunctionArgumentSeparator
  {
    if IsNumber(t) {
      NumberStart(t);
    }
  }

  /** Operator precedences agree with the table of the source: + - at 1, * / % at 3, ^ at 5, ! at 7. */
  lemma OperatorRanks()
    ensures PrecedenceOf("+") == PrecedenceOf("-") == 1
    ensures PrecedenceOf("*") == PrecedenceOf("/") == PrecedenceOf("%") == 3
    ensures PrecedenceOf("^") == 5 && PrecedenceOf("!") == 7
    ensures forall t :: IsOperator(t) ==> (IsLeftAssociative(t) <==> t != "^" && t != "!")
    ensures forall t :: IsOperator(t) ==> (ArityOf(t) == 1 <==> t == "!")
  {
  }
}
