/**
 * functions.Function and its subclass operators.Operator, as one closed set of
 * variants. Both are immutable (final fields), so a datatype value stands for
 * an instance; the getters are the field selectors `token`,
 * `numberOfArguments`, `precedence`.
 */
module Functions {
  import opened Wrappers

  datatype Associativity = Left | Right

  datatype Callable =
    /** a named function: token and arity */
    | Function(token: Option<string>, numberOfArguments: int)
    /** an operator: a Function with a precedence and an associativity */
    | Operator(token: Option<string>, numberOfArguments: int, precedence: int, associativity: Associativity)
  {
    /** Operator.isLeftAssociative */
    predicate IsLeftAssociative()
      requires Operator?
    {
      associativity == Left
    }
  }

  /** The argument of Function.equals: null, any Function (Operators included), or another object. */
  datatype Object = Null | Ref(callable: Callable) | NotAFunction

  /** Function.equals: only the tokens are compared (null tokens are equal to each other). */
  function Equals(self: Callable, obj: Object): (r: bool)
    ensures r <==> obj.Ref? && obj.callable.token == self.token
  {
    if obj.Null? then false
    else if obj.NotAFunction? then false
    else
      var other := obj.callable;
      if self.token.None? then other.token.None?
      else other.token.Some? && self.token.value == other.token.value
  }

  const MinInt32: int := -0x8000_0000
  const TwoTo32: int := 0x1_0000_0000

  predicate IsInt32(x: int) {
    MinInt32 <= x < -MinInt32
  }

  /** The Java int a mathematical integer wraps around to. */
  function Int32(x: int): (r: int)
    ensures IsInt32(r)
    ensures (r - x) % TwoTo32 == 0
  {
    (x - MinInt32) % TwoTo32 + MinInt32
  }

  /** java.lang.String.hashCode: h = 31 * h + c over the characters, in int arithmetic. */
  function StringHash(s: string): (h: int)
    ensures IsInt32(h)
    decreases |s|
  {
    if s == [] then 0 else Int32(31 * StringHash(s[..|s| - 1]) + s[|s| - 1] as int)
  }

  /** Function.hashCode: 31 * 1 + (hash of the token, 0 for null), in int arithmetic. */
  function HashCode(self: Callable): (h: int)
    ensures IsInt32(h)
    ensures self.token.None? ==> h == 31
  {
    var prime := 31;
    var result := 1;
    Int32(prime * result + (if self.token.None? then 0 else StringHash(self.token.value)))
  }

  /** Equal callables have equal hash codes; arity, precedence and associativity play no part. */
  lemma EqualsAgreesWithHashCode(a: Callable, b: Callable)
    requires Equals(a, Ref(b))
    ensures HashCode(a) == HashCode(b)
  {
  }

  /** equals is reflexive, symmetric and transitive on callables, and false for null. */
  lemma EqualsIsEquivalence(a: Callable, b: Callable, c: Callable)
    ensures Equals(a, Ref(a))
    ensures Equals(a, Ref(b)) ==> Equals(b, Ref(a))
    ensures Equals(a, Ref(b)) && Equals(b, Ref(c)) ==> Equals(a, Ref(c))
    ensures !Equals(a, Null) && !Equals(a, NotAFunction)
  {
  }

  /** A function and an operator with the same token are equal, whatever their arities. */
  lemma EqualsIgnoresArity(t: Option<string>, m: int, n: int, p: int, assoc: Associativity)
    ensures Equals(Function(t, m), Ref(Operator(t, n, p, assoc)))
    ensures m != n ==> Function(t, m) != Function(t, n) && Equals(Function(t, m), Ref(Function(t, n)))
  {
  }

  /** The hash of the token "+" (code point 43) is 43, so that of the operator + is 31 + 43. */
  lemma PlusHashCode()
    ensures HashCode(Operator(Some("+"), 2, 1, Left)) == 74
  {
    assert StringHash("+") == 43 by {
      assert "+"[..0] == [];
    }
  }
}
