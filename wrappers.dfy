/** Option and Result: the parser's exceptions and its null lookups become values. */
module Wrappers {
  datatype Option<+T> = None | Some(value: T)

  datatype Result<+T, +E> = Ok(value: T) | Err(error: E)
}

/**
 * Sequence helpers. A java.util.Stack is a sequence whose top is its LAST
 * element; these give its peek/pop and the order in which it is emptied.
 */
module Seqs {
  function Last<T>(s: seq<T>): T
    requires s != []
  {
    s[|s| - 1]
  }

  function Butlast<T>(s: seq<T>): seq<T>
    requires s != []
  {
    s[..|s| - 1]
  }

  /** The elements of s, last first: the order in which a stack is popped. */
  function Reverse<T>(s: seq<T>): (r: seq<T>)
    ensures |r| == |s|
    ensures forall i :: 0 <= i < |s| ==> r[i] == s[|s| - 1 - i]
    decreases |s|
  {
    if s == [] then [] else [Last(s)] + Reverse(Butlast(s))
  }

  /** Concatenation of five parts regrouped to the right. */
  lemma ConcatRight<T>(a: seq<T>, b: seq<T>, c: seq<T>, d: seq<T>, e: seq<T>)
    ensures a + b + c + d + e == a + (b + (c + (d + e)))
  {
  }

  /** Concatenation of three parts regrouped to the right. */
  lemma ConcatRight3<T>(a: seq<T>, b: seq<T>, c: seq<T>)
    ensures a + b + c == a + (b + c)
  {
  }

  /** Appending a three-part sequence is appending its parts one by one. */
  lemma AppendThree<T>(a: seq<T>, b: seq<T>, c: seq<T>, d: seq<T>)
    ensures a + (b + c + d) == a + b + c + d
  {
  }

  /** Popping the top of a stack first, then the rest down to position k. */
  lemma ReverseSuffix<T>(s: seq<T>, k: nat)
    requires k < |s|
    ensures Reverse(s[k..]) == [Last(s)] + Reverse(Butlast(s)[k..])
  {
    assert Last(s[k..]) == Last(s) && Butlast(s[k..]) == Butlast(s)[k..];
  }
}

/** The ways one evaluation can fail, one per throw site of the parser. */
module Errors {
  datatype Error =
    /** two numbers next to each other after the negative-literal repair */
    | AdjacentNumbers(left: string, right: string)
    /** a separator or `)` emptied the operator stack without meeting `(` */
    | MismatchedParenthesesOrComma
    | MismatchedParentheses
    /** java.util.Stack.peek on an empty stack (EmptyStackException) */
    | EmptyStack
    /** an RPN token that is no function, operator, number or constant */
    | InvalidToken(token: string)
    /** more than one value left on the operand stack */
    | MultipleValues(count: nat)
    /** LinkedList.pop on an empty operand stack (NoSuchElementException) */
    | NoSuchElement
}
