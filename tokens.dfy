/** Token classification of pkg/calc/calc.go: `isNumber`, `IsOperator` and the
    precedence table of `InfixToRPN`. */
module Tokens {

  /** The string `IsOperator` searches in. */
  const Operands: string := "+-*/"

  // `IsOperator`: `strings.Contains(operands, token)`, that is, `token`
  // occurs somewhere in Operands as a contiguous piece.  Taken literally this
  // holds for "", for each single operator and for runs such as "+-".
  predicate IsOperator(token: string) {
    exists i, j | 0 <= i <= j <= |Operands| :: Operands[i..j] == token
  }

  /** The four operators the precedence table knows. */
  predicate IsArithmeticOperator(token: string) {
    token == "+" || token == "-" || token == "*" || token == "/"
  }

  /** `precedence[token]` for the map {"+": 1, "-": 1, "*": 2, "/": 2};
      Go's map lookup gives 0 for every other key, "(" included. */
  function Precedence(token: string): (p: nat)
    ensures p > 0 <==> IsArithmeticOperator(token)
    ensures (token == "+" || token == "-") ==> p == 1
    ensures (token == "*" || token == "/") ==> p == 2
    ensures p <= 2
  {
    if token == "+" || token == "-" then 1
    else if token == "*" || token == "/" then 2
    else 0
  }

  // ---------------------------------------------------------------------
  // isNumber: strconv.ParseFloat(token, 64) succeeds on the whole token.

  predicate IsDigit(c: char) { '0' <= c <= '9' }

  /** The number of decimal digits `s` starts with. */
  function DigitRun(s: string): (n: nat)
    ensures n <= |s|
    ensures n < |s| ==> !IsDigit(s[n])
  {
    if |s| > 0 && IsDigit(s[0]) then 1 + DigitRun(s[1..]) else 0
  }

  /** One or more decimal digits. */
  predicate IsDigits(s: string) {
    |s| > 0 && DigitRun(s) == |s|
  }

  /** `s` with one leading '+' or '-' removed, if there is one. */
  function WithoutSign(s: string): (u: string)
    ensures |u| <= |s|
  {
    if |s| > 0 && (s[0] == '+' || s[0] == '-') then s[1..] else s
  }

  /** Nothing, or 'e'/'E', an optional sign and one or more digits. */
  predicate IsExponent(x: string) {
    x == [] || (|x| >= 2 && (x[0] == 'e' || x[0] == 'E') && IsDigits(WithoutSign(x[1..])))
  }

  /** An unsigned decimal literal: digits, optionally a '.' and more digits,
      at least one digit in all, then an optional exponent ("12", "1.",
      ".5", "1.25e-3"). */
  predicate IsUnsignedDecimal(u: string) {
    var a := DigitRun(u);
    if a < |u| && u[a] == '.' then
      var f := DigitRun(u[a + 1..]);
      a + f > 0 && IsExponent(u[a + 1 + f..])
    else
      a > 0 && IsExponent(u[a..])
  }

  function Lower(c: char): char {
    if 'A' <= c <= 'Z' then (c as int + 32) as char else c
  }

  /** ASCII case-insensitive equality with a lower-case word. */
  predicate EqualFold(s: string, lower: string) {
    if s == [] || lower == [] then s == lower
    else Lower(s[0]) == lower[0] && EqualFold(s[1..], lower[1..])
  }

  /** ParseFloat's special values: "inf" and "infinity" with an optional
      sign, and "nan" without one, in any letter case. */
  predicate IsSpecialValue(token: string) {
    EqualFold(token, "nan")
    || EqualFold(WithoutSign(token), "inf")
    || EqualFold(WithoutSign(token), "infinity")
  }

  /** `isNumber` (calc.go:65-68), restricted to the decimal and special forms. */
  predicate IsNumber(token: string) {
    IsSpecialValue(token) || IsUnsignedDecimal(WithoutSign(token))
  }

  // ---------------------------------------------------------------------
  // Facts about the classification.

  /** Every character of an operator token is one of + - * /. */
  lemma OperatorCharacters(token: string)
    ensures IsOperator(token) ==> forall k :: 0 <= k < |token| ==> token[k] in Operands
  {
    if IsOperator(token) {
      var i, j :| 0 <= i <= j <= |Operands| && Operands[i..j] == token;
      forall k | 0 <= k < |token| ensures token[k] in Operands {
        assert token[k] == Operands[i + k];
      }
    }
  }

  predicate IsLetterOrDigit(c: char) {
    IsDigit(c) || ('a' <= c <= 'z') || ('A' <= c <= 'Z')
  }

  /** Where a number token holds a letter or a digit. */
  lemma NumberLetterOrDigit(token: string) returns (k: nat)
    requires IsNumber(token)
    ensures k < |token| && IsLetterOrDigit(token[k])
  {
    var u := WithoutSign(token);
    var off := |token| - |u|;
    assert off == 0 || off == 1;
    assert off == 1 ==> u == token[1..];
    if EqualFold(token, "nan") {
      k := 0;
    } else if EqualFold(u, "inf") || EqualFold(u, "infinity") {
      assert Lower(u[0]) == 'i';
      assert u[0] == token[off];
      k := off;
    } else {
      var a := DigitRun(u);
      if a > 0 {
        k := off;
      } else {
        assert u[0] == '.' && DigitRun(u[1..]) > 0;
        assert u[1..][0] == u[1] == token[off + 1];
        k := off + 1;
      }
    }
  }

  /** No token is both a number and an operator, so the order in which the
      two loops test them does not matter. */
  lemma NumberIsNotOperator(token: string)
    requires IsNumber(token)
    ensures !IsOperator(token)
  {
    var k := NumberLetterOrDigit(token);
    OperatorCharacters(token);
    assert token[k] !in Operands;
  }

  /** The same fact from the operator's side. */
  lemma OperatorIsNotNumber(t: string)
    requires IsOperator(t)
    ensures !IsNumber(t)
  {
    if IsNumber(t) {
      NumberIsNotOperator(t);
    }
  }

  /** Neither parenthesis is a number. */
  lemma ParenthesisIsNotNumber(token: string)
    requires token == "(" || token == ")"
    ensures !IsNumber(token)
  {
    if IsNumber(token) {
      var k := NumberLetterOrDigit(token);
      assert false;
    }
  }

  // `IsOperator` holds exactly for the eleven contiguous pieces of Operands.
  lemma OperatorPieces(token: string)
    ensures IsOperator(token) <==>
      token in {"", "+", "-", "*", "/", "+-", "-*", "*/", "+-*", "-*/", "+-*/"}
  {
    assert Operands[0..0] == "";
    assert Operands[0..1] == "+" && Operands[1..2] == "-" && Operands[2..3] == "*" && Operands[3..4] == "/";
    assert Operands[0..2] == "+-" && Operands[1..3] == "-*" && Operands[2..4] == "*/";
    assert Operands[0..3] == "+-*" && Operands[1..4] == "-*/" && Operands[0..4] == "+-*/";
    assert forall i | 0 <= i <= 4 :: Operands[i..i] == "";
  }

  /** The four arithmetic operators are operators, and exactly the
      operators with a place in the precedence table. */
  lemma ArithmeticOperators(token: string)
    ensures IsArithmeticOperator(token) <==> IsOperator(token) && Precedence(token) > 0
  {
    OperatorPieces(token);
  }

  lemma ParenthesisIsNotOperator(token: string)
    requires token == "(" || token == ")"
    ensures !IsOperator(token)
  {
    OperatorPieces(token);
  }

  /** A run of decimal digits such as "42" is a number. */
  lemma DigitsAreNumbers(token: string)
    requires IsDigits(token)
    ensures IsNumber(token)
  {
    assert WithoutSign(token) == token;
    assert token[|token|..] == [];
  }

  // ---------------------------------------------------------------------
  // The number tokens and the operator tokens of a token list, in order.

  function NumberTokens(ts: seq<string>): (ns: seq<string>)
    ensures |ns| <= |ts|
  {
    if ts == [] then []
    else NumberTokens(ts[..|ts| - 1]) + (if IsNumber(ts[|ts| - 1]) then [ts[|ts| - 1]] else [])
  }

  function OperatorTokens(ts: seq<string>): (os: seq<string>)
    ensures |os| <= |ts|
  {
    if ts == [] then []
    else OperatorTokens(ts[..|ts| - 1]) + (if IsOperator(ts[|ts| - 1]) then [ts[|ts| - 1]] else [])
  }

  lemma {:induction false} NumberTokensAppend(a: seq<string>, b: seq<string>)
    ensures NumberTokens(a + b) == NumberTokens(a) + NumberTokens(b)
    decreases |b|
  {
    if b == [] {
      assert a + b == a;
    } else {
      var b' := b[..|b| - 1];
      assert (a + b)[..|a + b| - 1] == a + b';
      assert (a + b)[|a + b| - 1] == b[|b| - 1];
      NumberTokensAppend(a, b');
    }
  }

  lemma {:induction false} OperatorTokensAppend(a: seq<string>, b: seq<string>)
    ensures OperatorTokens(a + b) == OperatorTokens(a) + OperatorTokens(b)
    decreases |b|
  {
    if b == [] {
      assert a + b == a;
    } else {
      var b' := b[..|b| - 1];
      assert (a + b)[..|a + b| - 1] == a + b';
      assert (a + b)[|a + b| - 1] == b[|b| - 1];
      OperatorTokensAppend(a, b');
    }
  }

  /** The filters of a one-token list. */
  lemma TokensOfSingleton(t: string)
    ensures NumberTokens([t]) == if IsNumber(t) then [t] else []
    ensures OperatorTokens([t]) == if IsOperator(t) then [t] else []
  {
    assert [t][..0] == [];
  }
}
