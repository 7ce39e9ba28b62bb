/**
 * CalculatorImpl itself: the four fields shared by its procedures, and one
 * method per procedure that updates them as the Java code does. Each method
 * is proved to compute what the corresponding function of `Evaluator`
 * computes from the state it starts in, and to leave the state that function
 * describes; a thrown IllegalArgumentException is an `Err` result.
 */
module Calculator {
  import opened Outcomes
  import opened Lexer
  import Evaluator
  import NumberLiteral

  class CalculatorImpl {
    /** The expression being parsed. */
    var exp: string
    /** The current token. */
    var token: string
    /** The index of the next character of `exp` to read. */
    var expIndex: nat
    /** The type of the current token. */
    var tokenType: TokenType

    /** The fields, as the state the evaluator functions work on. */
    function State(): Evaluator.State
      reads this
    {
      Evaluator.State(exp, expIndex, token, tokenType)
    }

    /**
     * The index lies within the expression and the token has the shape
     * `getToken` gives it. This is not a class invariant: a new calculator's
     * empty, untyped token does not have that shape. It is the state
     * `calculate` sets up, by reading the first token, before it calls the
     * private procedures; each of them that succeeds leaves it valid again.
     */
    predicate Valid()
      reads this
    {
      Evaluator.Valid(State())
    }

    /** The Java fields start out null and zero; the strings are empty here. */
    constructor ()
      ensures exp == "" && token == "" && expIndex == 0 && tokenType == Untyped
    {
      exp := "";
      token := "";
      expIndex := 0;
      tokenType := Untyped;
    }

    /**
     * `getToken`: skips whitespace, then reads one delimiter, or a number up
     * to the next delimiter, or yields the end of expression. The index never
     * moves back, and moves on whenever a DELIMETER or NUMBER token is read;
     * the token is never empty.
     */
    method GetToken()
      requires expIndex <= |exp|
      modifies this
      ensures exp == old(exp)
      ensures Scan(token, tokenType, expIndex) == NextToken(exp, old(expIndex))
      ensures old(expIndex) <= expIndex <= |exp| && TokenShape(token, tokenType)
      ensures tokenType != Untyped ==> old(expIndex) < expIndex
    {
      tokenType := Untyped;
      token := "";
      if expIndex == |exp| {
        token := EOE;
        assert Scanner(exp, expIndex, Skipping) == Scanner(exp, expIndex, Reading);
        return;
      }
      SkipWhitespace();
      if expIndex == |exp| {
        token := EOE;
        assert Scanner(exp, expIndex, Skipping) == Scanner(exp, expIndex, Reading);
        return;
      }
      FirstCharacter(exp, expIndex);
      if IsDelim(exp[expIndex]) {
        token := token + [exp[expIndex]];
        expIndex := expIndex + 1;
        tokenType := Delimiter;
      } else if IsDigit(exp[expIndex]) {
        ReadNumber();
        tokenType := Number;
      } else {
        token := EOE;
        return;
      }
    }

    /** The whitespace loop of `getToken`: it passes over whitespace, which does not change the next token. */
    method SkipWhitespace()
      requires expIndex <= |exp|
      modifies this
      ensures exp == old(exp) && token == old(token) && tokenType == old(tokenType)
      ensures old(expIndex) <= expIndex <= |exp|
      ensures expIndex == |exp| || !IsWhitespace(exp[expIndex])
      ensures NextToken(exp, expIndex) == NextToken(exp, old(expIndex))
    {
      while expIndex < |exp| && IsWhitespace(exp[expIndex])
        invariant old(expIndex) <= expIndex <= |exp|
        invariant exp == old(exp) && token == old(token) && tokenType == old(tokenType)
        invariant NextToken(exp, expIndex) == NextToken(exp, old(expIndex))
        decreases |exp| - expIndex
      {
        assert NextToken(exp, expIndex) == NextToken(exp, expIndex + 1);
        expIndex := expIndex + 1;
      }
    }

    /**
     * The number loop of `getToken`, on an empty token at a digit: it appends
     * every character up to the next delimiter or the end to the token, which
     * is then the NUMBER token there.
     */
    method ReadNumber()
      requires expIndex < |exp| && IsDigit(exp[expIndex]) && token == ""
      modifies this
      ensures exp == old(exp) && tokenType == old(tokenType)
      ensures NextToken(exp, old(expIndex)) == Scan(token, Number, expIndex)
    {
      ghost var start := expIndex;
      ghost var end := NumberEnd(exp, start);
      while !IsDelim(exp[expIndex])
        invariant start <= expIndex < |exp| && expIndex <= end
        invariant exp == old(exp) && tokenType == old(tokenType)
        invariant token == exp[start..expIndex]
        decreases |exp| - expIndex
      {
        assert exp[start..expIndex + 1] == exp[start..expIndex] + [exp[expIndex]];
        token := token + [exp[expIndex]];
        expIndex := expIndex + 1;
        if expIndex >= |exp| {
          break;
        }
      }
      NumberRead(exp, start);
    }

    /** `addOrSubtract`: a product, then a loop over `+` and `-` and a further product. */
    method AddOrSubtract() returns (r: Result<real>)
      requires Valid()
      modifies this
      ensures exp == old(exp)
      ensures Evaluator.AddOrSubtract(old(State())) == Evaluator.Continue(r, State())
      decreases Evaluator.Rem(State()), 6
    {
      ghost var start := State();
      ghost var goal := Evaluator.AddOrSubtract(start);
      var first := DivideOrMultiply();
      Evaluator.SumEntry(start, State(), first);
      if first.Err? {
        return first;
      }
      var result := first.value;
      while token[0] == '+' || token[0] == '-'
        invariant Valid() && exp == old(exp)
        invariant Evaluator.Rem(State()) < Evaluator.Rem(start)
        invariant goal == Evaluator.AddOrSubtractLoop(result, State())
        decreases Evaluator.Rem(State())
      {
        ghost var before, acc := State(), result;
        var operand := token[0];
        GetToken();
        var temp := DivideOrMultiply();
        Evaluator.AddStep(acc, before, State(), temp);
        if temp.Err? {
          return temp;
        }
        // subtracts after `-` and adds after `+`
        result := Evaluator.Added(result, operand, temp.value);
      }
      return Ok(result);
    }

    /** `divideOrMultiply`: a signed operand, then a loop over `*` and `/` and a further operand. */
    method DivideOrMultiply() returns (r: Result<real>)
      requires Valid()
      modifies this
      ensures exp == old(exp)
      ensures Evaluator.DivideOrMultiply(old(State())) == Evaluator.Continue(r, State())
      decreases Evaluator.Rem(State()), 4
    {
      ghost var start := State();
      ghost var goal := Evaluator.DivideOrMultiply(start);
      var first := UnarySign();
      Evaluator.TermEntry(start, State(), first);
      if first.Err? {
        return first;
      }
      var result := first.value;
      while token[0] == '*' || token[0] == '/'
        invariant Valid() && exp == old(exp)
        invariant Evaluator.Rem(State()) < Evaluator.Rem(start)
        invariant goal == Evaluator.DivideOrMultiplyLoop(result, State())
        decreases Evaluator.Rem(State())
      {
        ghost var before, acc := State(), result;
        var operand := token[0];
        GetToken();
        var temp := UnarySign();
        Evaluator.MulStep(acc, before, State(), temp);
        if temp.Err? {
          return temp;
        }
        if operand == '*' {
          result := Evaluator.Product(result, temp.value);
        } else if operand == '/' {
          if temp.value == 0.0 {
            assert Evaluator.MulOperand(acc, operand, temp) == Err(DivisionByZero);
            return Err(DivisionByZero);
          }
          result := Evaluator.Divided(result, temp.value);
          result := Evaluator.Divided(result, temp.value);
        }
        assert Evaluator.MulOperand(acc, operand, temp) == Ok(result);
      }
      return Ok(result);
    }

    /** `unarySign`: takes at most one sign, then a bracketed sum or a number. */
    method UnarySign() returns (r: Result<real>)
      requires Valid()
      modifies this
      ensures exp == old(exp)
      ensures Evaluator.UnarySign(old(State())) == Evaluator.Continue(r, State())
      decreases Evaluator.Rem(State()), 2
    {
      ghost var start := State();
      var operand := "";
      if (tokenType == Delimiter && token == "+") || token == "-" {
        Evaluator.SignIsDelimiter(start);
        operand := token;
        GetToken();
      } else {
        Evaluator.NoSign(start);
      }
      var inner := EvalBrackets();
      if operand != "" {
        Evaluator.SignStep(start, State(), inner, operand == "-");
      }
      if inner.Err? {
        return inner;
      }
      var result := inner.value;
      if operand == "-" {
        result := -result;
      }
      return Ok(result);
    }

    /** `evalBrackets`: a `(`, a sum and a `)`; or else a number. */
    method EvalBrackets() returns (r: Result<real>)
      requires Valid()
      modifies this
      ensures exp == old(exp)
      ensures Evaluator.EvalBrackets(old(State())) == Evaluator.Continue(r, State())
      decreases Evaluator.Rem(State()), 1
    {
      if token == "(" {
        GetToken();
        r := AddOrSubtract();
        if r.Err? {
          return r;
        }
        if token != ")" {
          return Err(UnclosedBracket);
        }
        GetToken();
      } else {
        r := ValueOfNumber();
      }
    }

    /** `valueOfNumber`: converts a NUMBER token and reads the next one. */
    method ValueOfNumber() returns (r: Result<real>)
      requires Valid()
      modifies this
      ensures exp == old(exp)
      ensures Evaluator.ValueOfNumber(old(State())) == Evaluator.Continue(r, State())
    {
      if tokenType == Number {
        var parsed := NumberLiteral.ParseDouble(token);
        if parsed.None? {
          return Err(MalformedNumber);
        }
        GetToken();
        return Ok(parsed.value);
      } else {
        return Err(NotANumber);
      }
    }

    /**
     * `calculate`: sets the expression, resets the index, reads the first
     * token, which must not be the end of expression, evaluates the sum and
     * demands that the end of expression follows it.
     */
    method Calculate(statement: string) returns (r: Result<real>)
      modifies this
      ensures r == Evaluator.Calculate(statement)
    {
      exp := statement;
      expIndex := 0;
      GetToken();
      if token == EOE {
        return Err(NoExpression);
      }
      r := AddOrSubtract();
      if r.Err? {
        return r;
      }
      if token != EOE {
        return Err(TrailingToken);
      }
    }

    /** `evaluate` without the rounding to a string: `None` where the Java method returns `null`. */
    method Evaluate(statement: string) returns (r: Option<real>)
      modifies this
      ensures r == Evaluator.Evaluate(statement)
    {
      var value := Calculate(statement);
      if value.Err? {
        return None;
      }
      return Some(value.value);
    }
  }
}
