/**
 * Which token texts are numbers. Both ExpressionParser.isNumber and
 * Tokenizer.isNumber ask whether Double.parseDouble accepts the token; this
 * module gives that acceptance for the forms the lexer can hand over: an
 * optional sign followed by "Infinity", "NaN", or a decimal literal (digits
 * with at most one point, at least one digit) with an optional exponent.
 */
module NumberSyntax {
  predicate IsDigit(c: char) {
    '0' <= c <= '9'
  }

  predicate IsSign(c: char) {
    c == '+' || c == '-'
  }

  /** One or more decimal digits. */
  predicate Digits(s: string)
    decreases |s|
  {
    |s| > 0 && IsDigit(s[0]) && (|s| == 1 || Digits(s[1..]))
  }

  predicate Exponent(s: string) {
    if |s| > 0 && IsSign(s[0]) then Digits(s[1..]) else Digits(s)
  }

  /** The rest of a decimal literal, having already seen a point / a digit or not. */
  predicate Mantissa(s: string, seenPoint: bool, seenDigit: bool)
    decreases |s|
  {
    if s == [] then seenDigit
    else if IsDigit(s[0]) then Mantissa(s[1..], seenPoint, true)
    else if s[0] == '.' && !seenPoint then Mantissa(s[1..], true, seenDigit)
    else if (s[0] == 'e' || s[0] == 'E') && seenDigit then Exponent(s[1..])
    else false
  }

  predicate IsUnsignedNumber(s: string) {
    s == "Infinity" || s == "NaN" || Mantissa(s, false, false)
  }

  predicate IsNumber(t: string) {
    if |t| > 0 && IsSign(t[0]) then IsUnsignedNumber(t[1..]) else IsUnsignedNumber(t)
  }

  predicate StartsWithMinus(t: string) {
    |t| > 0 && t[0] == '-'
  }

  /** An unsigned number starts with neither sign. */
  lemma UnsignedNumberStart(s: string)
    requires IsUnsignedNumber(s)
    ensures s != [] && !IsSign(s[0])
  {
  }

  /** A one-character decimal literal is a digit. */
  lemma SingleCharacterMantissa(c: char)
    requires Mantissa([c], false, false)
    ensures IsDigit(c)
  {
    assert [c][1..] == [];
  }

  /** What a number token can start with; a one-character number is a digit. */
  lemma NumberStart(t: string)
    requires IsNumber(t)
    ensures |t| > 0 && (IsDigit(t[0]) || IsSign(t[0]) || t[0] == '.' || t[0] == 'I' || t[0] == 'N')
    ensures |t| == 1 ==> IsDigit(t[0])
  {
    if |t| > 0 && IsSign(t[0]) {
      UnsignedNumberStart(t[1..]);
    } else {
      UnsignedNumberStart(t);
      if |t| == 1 {
        assert t != "Infinity" && t != "NaN" && t == [t[0]];
        SingleCharacterMantissa(t[0]);
      }
    }
  }

  /**
   * Dropping the leading '-' of a negative number leaves a number that does
   * not start with '-': the fact the negative-literal repair relies on.
   */
  lemma StripMinus(t: string)
    requires IsNumber(t) && StartsWithMinus(t)
    ensures IsNumber(t[1..]) && !StartsWithMinus(t[1..])
  {
    UnsignedNumberStart(t[1..]);
  }
}
