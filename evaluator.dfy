/**
 * A pure description of the recursive-descent evaluator of CalculatorImpl.
 *
 * The Java procedures share four fields: the expression, the index into it,
 * the current token and its type. Here they are a `State` value, and each
 * procedure is a function from the state it starts in to either its value
 * and the state it leaves behind, or the failure that it throws. The
 * `while` loops of `addOrSubtract` and `divideOrMultiply` are the functions
 * `AddOrSubtractLoop` and `DivideOrMultiplyLoop`, which take the value
 * accumulated so far.
 */
module Evaluator {
  import opened Outcomes
  import opened Lexer
  import NumberLiteral

  datatype State = State(exp: string, index: nat, token: string, kind: TokenType)

  /** A value computed by a procedure, and the state it leaves behind. */
  datatype Step = Step(value: real, rest: State)

  /** The index lies within the expression and the token has the shape `getToken` gives it. */
  predicate Valid(s: State) {
    s.index <= |s.exp| && TokenShape(s.token, s.kind)
  }

  /**
   * The input not yet consumed: the characters after the index, plus one for
   * a current token that is a DELIMETER or a NUMBER (it was consumed from the
   * text, but not yet by the parser).
   */
  function Rem(s: State): nat
    requires s.index <= |s.exp|
  {
    |s.exp| - s.index + (if s.kind == Untyped then 0 else 1)
  }

  /** The state after a call of `getToken` that starts at index `i` of `exp`. */
  function At(exp: string, i: nat): (s: State)
    requires i <= |exp|
    ensures Valid(s) && s.exp == exp && i <= s.index
  {
    var t := NextToken(exp, i);
    State(exp, t.next, t.token, t.kind)
  }

  /**
   * `getToken` on a state. It keeps the state valid and never moves the index
   * back; it never increases the remaining input, and it strictly decreases it
   * when the token it replaces was a DELIMETER or a NUMBER.
   */
  function Advance(s: State): (r: State)
    requires s.index <= |s.exp|
    ensures Valid(r) && r.exp == s.exp && s.index <= r.index
    ensures Rem(r) <= Rem(s)
    ensures s.kind != Untyped ==> Rem(r) < Rem(s)
  {
    At(s.exp, s.index)
  }

  /** A successful step ends in a valid state of the same expression, further on, with less input left. */
  predicate Consumes(s: State, r: Result<Step>)
    requires s.index <= |s.exp|
  {
    r.Ok? ==>
      Valid(r.value.rest) && r.value.rest.exp == s.exp &&
      s.index <= r.value.rest.index && Rem(r.value.rest) < Rem(s)
  }

  /** Like `Consumes`, but the step may consume nothing. */
  predicate MayConsume(s: State, r: Result<Step>)
    requires s.index <= |s.exp|
  {
    r.Ok? ==>
      Valid(r.value.rest) && r.value.rest.exp == s.exp &&
      s.index <= r.value.rest.index && Rem(r.value.rest) <= Rem(s)
  }

  /** A value together with the state it leaves behind, or the failure unchanged. */
  function Continue(r: Result<real>, s: State): Result<Step> {
    match r
    case Ok(v) => Ok(Step(v, s))
    case Err(f) => Err(f)
  }

  /** A token whose first character is a delimiter is a DELIMETER token. */
  lemma SignIsDelimiter(s: State)
    requires Valid(s)
    requires IsDelim(s.token[0])
    ensures s.kind == Delimiter
  {
  }

  /** `addOrSubtract`: a product, then any number of `+` or `-` and a further product. */
  function AddOrSubtract(s: State): (r: Result<Step>)
    requires Valid(s)
    ensures Consumes(s, r)
    decreases Rem(s), 6
  {
    match DivideOrMultiply(s)
    case Err(f) => Err(f)
    case Ok(Step(v, t)) => AddOrSubtractLoop(v, t)
  }

  /** The loop of `addOrSubtract`, with `acc` the result so far; it folds left to right. */
  function AddOrSubtractLoop(acc: real, s: State): (r: Result<Step>)
    requires Valid(s)
    ensures MayConsume(s, r)
    decreases Rem(s), 5
  {
    var operand := s.token[0];
    if operand == '+' || operand == '-' then
      SignIsDelimiter(s);
      var s1 := Advance(s);
      match DivideOrMultiply(s1)
      case Err(f) => Err(f)
      case Ok(Step(v, t)) =>
        AddOrSubtractLoop(Added(acc, operand, v), t)
    else Ok(Step(acc, s))
  }

  /** The step of the loop of `addOrSubtract`: the operand is subtracted after `-` and added after `+`. */
  function Added(acc: real, op: char, v: real): real {
    if op == '-' then acc - v else acc + v
  }

  /** The step of the loop of `divideOrMultiply` for `*`. */
  function Product(a: real, b: real): real {
    a * b
  }

  /**
   * The step of the loop of `divideOrMultiply` for `/`: the Java code divides
   * the result by the operand and then by the operand again.
   */
  function Quotient(a: real, b: real): real
    requires b != 0.0
  {
    Divided(Divided(a, b), b)
  }

  function Divided(a: real, b: real): real
    requires b != 0.0
  {
    a / b
  }

  /** Dividing twice by the operand is dividing once by its square: multiplied by the square, it gives back the dividend. */
  lemma QuotientIsOverSquare(a: real, b: real)
    requires b != 0.0
    ensures Quotient(a, b) * (b * b) == a
  {
    var q := a / b;
    var r := q / b;
    assert Quotient(a, b) == Divided(q, b) == r;
    assert q * b == a;
    assert r * b == q;
    assert r * (b * b) == (r * b) * b;
  }



  /** `divideOrMultiply`: a signed operand, then any number of `*` or `/` and a further operand. */
  function DivideOrMultiply(s: State): (r: Result<Step>)
    requires Valid(s)
    ensures Consumes(s, r)
    decreases Rem(s), 4
  {
    match UnarySign(s)
    case Err(f) => Err(f)
    case Ok(Step(v, t)) => DivideOrMultiplyLoop(v, t)
  }

  /**
   * The loop of `divideOrMultiply`. A zero right operand of `/` fails;
   * otherwise the result is divided by it twice, as in `Quotient`.
   */
  function DivideOrMultiplyLoop(acc: real, s: State): (r: Result<Step>)
    requires Valid(s)
    ensures MayConsume(s, r)
    decreases Rem(s), 3
  {
    var operand := s.token[0];
    if operand == '*' || operand == '/' then
      SignIsDelimiter(s);
      var s1 := Advance(s);
      match UnarySign(s1)
      case Err(f) => Err(f)
      case Ok(Step(v, t)) =>
        if operand == '*' then DivideOrMultiplyLoop(Product(acc, v), t)
        else if v == 0.0 then Err(DivisionByZero)
        else DivideOrMultiplyLoop(Quotient(acc, v), t)
    else Ok(Step(acc, s))
  }

  /**
   * `unarySign`: at most one leading sign, then a bracketed expression or a
   * number. The guard is the Java one, `tokenType == DELIMETER && token == "+"`
   * or `token == "-"`.
   */
  function UnarySign(s: State): (r: Result<Step>)
    requires Valid(s)
    ensures Consumes(s, r)
    decreases Rem(s), 2
  {
    if (s.kind == Delimiter && s.token == "+") || s.token == "-" then
      Signed(s.token == "-", EvalBrackets(Advance(s)))
    else EvalBrackets(s)
  }

  /** The value of a step negated when `minus` holds; the state it leaves and a failure are kept. */
  function Signed(minus: bool, r: Result<Step>): (q: Result<Step>)
    ensures q.Err? <==> r.Err?
    ensures q.Ok? ==> q.value.rest == r.value.rest
  {
    match r
    case Err(f) => Err(f)
    case Ok(Step(v, t)) => Ok(Step(if minus then -v else v, t))
  }

  /** `evalBrackets`: a `(`, an expression and a `)`, or else a number. */
  function EvalBrackets(s: State): (r: Result<Step>)
    requires Valid(s)
    ensures Consumes(s, r)
    decreases Rem(s), 1
  {
    if s.token == "(" then
      var s1 := Advance(s);
      match AddOrSubtract(s1)
      case Err(f) => Err(f)
      case Ok(Step(v, t)) =>
        if t.token != ")" then Err(UnclosedBracket) else Ok(Step(v, Advance(t)))
    else ValueOfNumber(s)
  }

  /** `valueOfNumber`: the value of a NUMBER token, which is then consumed. */
  function ValueOfNumber(s: State): (r: Result<Step>)
    requires Valid(s)
    ensures Consumes(s, r)
    ensures r.Ok? <==> s.kind == Number && NumberLiteral.ParseDouble(s.token).Some?
    ensures r.Ok? ==> r.value == Step(NumberLiteral.ParseDouble(s.token).value, Advance(s))
    ensures s.kind != Number ==> r == Err(NotANumber)
    decreases Rem(s), 0
  {
    if s.kind == Number then
      match NumberLiteral.ParseDouble(s.token)
      case None => Err(MalformedNumber)
      case Some(v) => Ok(Step(v, Advance(s)))
    else Err(NotANumber)
  }

  /** The state after `calculate` has set the expression, reset the index and read the first token. */
  function Start(statement: string): (s: State)
    ensures Valid(s) && s.exp == statement
  {
    At(statement, 0)
  }

  /**
   * `calculate`: the first token must not be the end of expression, and after
   * the whole expression the current token must be the end of expression.
   */
  function Calculate(statement: string): (r: Result<real>)
  {
    var s := Start(statement);
    if s.token == EOE then Err(NoExpression)
    else match AddOrSubtract(s)
      case Err(f) => Err(f)
      case Ok(Step(v, t)) => if t.token != EOE then Err(TrailingToken) else Ok(v)
  }

  /** `evaluate` without the rounding: `None` where the Java method returns `null`. */
  function Evaluate(statement: string): (r: Option<real>)
    ensures r.None? <==> Calculate(statement).Err?
    ensures r.Some? ==> Calculate(statement) == Ok(r.value)
  {
    match Calculate(statement)
    case Ok(v) => Some(v)
    case Err(_) => None
  }

  // ----- One step of a procedure, with the procedures it calls given ------

  /** The token does not continue a product. */
  predicate EndsTerm(s: State)
    requires |s.token| > 0
  {
    s.token[0] != '*' && s.token[0] != '/'
  }

  /** The token continues neither a sum nor a product. */
  predicate EndsSum(s: State)
    requires |s.token| > 0
  {
    EndsTerm(s) && s.token[0] != '+' && s.token[0] != '-'
  }

  /** The end of expression continues neither a sum nor a product. */
  lemma EndEndsSum(s: State)
    requires s.token == EOE
    ensures |s.token| > 0 && EndsSum(s)
  {
    assert s.token[0] == '\0';
  }

  /** The loop of `divideOrMultiply` run from the value `r`, unless `r` is a failure. */
  function ThenTerm(r: Result<real>, s: State): Result<Step>
    requires r.Ok? ==> Valid(s)
  {
    match r
    case Err(f) => Err(f)
    case Ok(v) => DivideOrMultiplyLoop(v, s)
  }

  /** The loop of `addOrSubtract` run from the value `r`, unless `r` is a failure. */
  function ThenSum(r: Result<real>, s: State): Result<Step>
    requires r.Ok? ==> Valid(s)
  {
    match r
    case Err(f) => Err(f)
    case Ok(v) => AddOrSubtractLoop(v, s)
  }

  /** `acc op b` for a `+` or `-` on the accumulated value: `b` fails, or is added or subtracted. */
  function AddOperand(acc: real, op: char, b: Result<real>): (r: Result<real>)
    ensures b.Err? <==> r.Err?
    ensures b.Err? ==> r == b
  {
    match b
    case Err(f) => Err(f)
    case Ok(v) => Ok(Added(acc, op, v))
  }

  /** `acc op b` for a `*` or `/` on the accumulated value; a zero divisor fails. */
  function MulOperand(acc: real, op: char, b: Result<real>): (r: Result<real>)
    ensures b.Err? ==> r == b
    ensures r.Err? && b.Ok? ==> op != '*' && b.value == 0.0 && r == Err(DivisionByZero)
  {
    match b
    case Err(f) => Err(f)
    case Ok(v) =>
      if op == '*' then Ok(Product(acc, v))
      else if v == 0.0 then Err(DivisionByZero)
      else Ok(Quotient(acc, v))
  }

  /** The loop of `divideOrMultiply` stops at a token that does not continue a product. */
  lemma TermStops(b: Result<real>, s: State)
    requires Valid(s) && EndsTerm(s)
    ensures ThenTerm(b, s) == Continue(b, s)
  {
  }

  /** The loop of `addOrSubtract` stops at a token that does not continue a sum. */
  lemma SumStops(b: Result<real>, s: State)
    requires Valid(s) && EndsSum(s)
    ensures ThenSum(b, s) == Continue(b, s)
  {
  }

  /** `divideOrMultiply` is its first operand followed by its loop. */
  lemma TermEntry(s: State, t: State, b: Result<real>)
    requires Valid(s)
    requires UnarySign(s) == Continue(b, t)
    ensures DivideOrMultiply(s) == ThenTerm(b, t)
  {
  }

  /** `addOrSubtract` is its first operand followed by its loop. */
  lemma SumEntry(s: State, t: State, b: Result<real>)
    requires Valid(s)
    requires DivideOrMultiply(s) == Continue(b, t)
    ensures AddOrSubtract(s) == ThenSum(b, t)
  {
  }

  /** One iteration of the loop of `addOrSubtract`, with the value `b` of the product after the sign. */
  lemma AddStep(acc: real, s: State, t: State, b: Result<real>)
    requires Valid(s) && (s.token[0] == '+' || s.token[0] == '-')
    requires DivideOrMultiply(Advance(s)) == Continue(b, t)
    ensures AddOrSubtractLoop(acc, s) == ThenSum(AddOperand(acc, s.token[0], b), t)
  {
  }

  /** One iteration of the loop of `divideOrMultiply`, with the value `b` of the operand after the sign. */
  lemma MulStep(acc: real, s: State, t: State, b: Result<real>)
    requires Valid(s) && (s.token[0] == '*' || s.token[0] == '/')
    requires UnarySign(Advance(s)) == Continue(b, t)
    ensures DivideOrMultiplyLoop(acc, s) == ThenTerm(MulOperand(acc, s.token[0], b), t)
  {
  }

  /** The value `b` after a sign: negated after `-`, unchanged after `+`; a failure stays one. */
  function SignApplied(minus: bool, b: Result<real>): (r: Result<real>)
    ensures r.Err? <==> b.Err?
    ensures b.Err? ==> r == b
  {
    match b
    case Err(f) => Err(f)
    case Ok(v) => Ok(if minus then -v else v)
  }

  /** `unarySign` on a sign token consumes it and applies the sign to what `evalBrackets` yields after it. */
  lemma SignUnfolds(s: State, minus: bool)
    requires Valid(s) && s.kind == Delimiter && s.token == (if minus then "-" else "+")
    ensures UnarySign(s) == Signed(minus, EvalBrackets(Advance(s)))
  {
  }

  /** `unarySign` on a sign token consumes it and applies it to what follows. */
  lemma SignStep(s: State, t: State, b: Result<real>, minus: bool)
    requires Valid(s) && s.kind == Delimiter && s.token == (if minus then "-" else "+")
    requires EvalBrackets(Advance(s)) == Continue(b, t)
    ensures UnarySign(s) == Continue(SignApplied(minus, b), t)
  {
    SignUnfolds(s, minus);
    SignedContinues(minus, b, t);
  }

  /** Negating a step is negating its value. */
  lemma SignedContinues(minus: bool, b: Result<real>, t: State)
    ensures Signed(minus, Continue(b, t)) == Continue(SignApplied(minus, b), t)
  {
  }

  /** `evalBrackets` on `(`, with the value `b` of the inner sum and the state `t` after it. */
  lemma BracketStep(s: State, t: State, b: Result<real>)
    requires Valid(s) && Valid(t) && s.token == "("
    requires AddOrSubtract(Advance(s)) == Continue(b, t)
    ensures b.Err? ==> EvalBrackets(s) == Err(b.failure)
    ensures b.Ok? && t.token == ")" ==> EvalBrackets(s) == Ok(Step(b.value, Advance(t)))
    ensures b.Ok? && t.token != ")" ==> EvalBrackets(s) == Err(UnclosedBracket)
  {
  }

  /** A failure of the first operand is the failure of the whole sum. */
  lemma FirstOperandFails(s: State)
    requires Valid(s) && UnarySign(s).Err?
    ensures AddOrSubtract(s) == Err(UnarySign(s).failure)
  {
  }

  /** A failure of the first operand of a statement is the failure of `calculate`. */
  lemma StartFails(statement: string)
    requires Start(statement).token != EOE && UnarySign(Start(statement)).Err?
    ensures Calculate(statement) == Err(UnarySign(Start(statement)).failure)
  {
    FirstOperandFails(Start(statement));
  }

  /** `evalBrackets` on a DELIMETER token other than `(` wants a number, and fails. */
  lemma NumberWanted(s: State)
    requires Valid(s) && s.kind == Delimiter && s.token != "("
    ensures EvalBrackets(s) == Err(NotANumber)
  {
  }

  /** Where an operand is wanted, the end of expression is not one. */
  lemma OperandWanted(s: State)
    requires Valid(s) && s.kind == Untyped
    ensures DivideOrMultiply(s) == Err(NotANumber)
  {
    assert s.token[0] == '\0';
    assert EvalBrackets(s) == ValueOfNumber(s) == Err(NotANumber);
    assert UnarySign(s) == EvalBrackets(s);
  }

  /**
   * At most one sign is taken in front of an operand: wherever an operand
   * starts with a sign followed by a second sign, the second one is where a
   * number is wanted, and `unarySign` fails.
   */
  lemma SecondSignFails(s: State)
    requires Valid(s) && (s.token == "+" || s.token == "-")
    requires Advance(s).token == "+" || Advance(s).token == "-"
    ensures UnarySign(s) == Err(NotANumber)
  {
    assert IsDelim(s.token[0]) && IsDelim(Advance(s).token[0]);
    SignIsDelimiter(s);
    SignIsDelimiter(Advance(s));
    SignUnfolds(s, s.token == "-");
    NumberWanted(Advance(s));
  }

  /** `unarySign` on an opening bracket goes straight to `evalBrackets`. */
  lemma OpenIsNoSign(s: State)
    requires Valid(s) && s.token == "("
    ensures UnarySign(s) == EvalBrackets(s)
  {
    assert s.token[0] == '(';
  }

  /** `unarySign` on a token that is not a sign goes straight to `evalBrackets`. */
  lemma NoSign(s: State)
    requires Valid(s) && s.token != "+" && s.token != "-"
    ensures UnarySign(s) == EvalBrackets(s)
  {
  }

  /**
   * The guard of `unarySign` binds `tokenType == DELIMETER` to the `+` case
   * only; on a valid state this makes no difference, since a token `-` is
   * always a DELIMETER token.
   */
  lemma SignGuardAsIntended(s: State)
    requires Valid(s)
    ensures ((s.kind == Delimiter && s.token == "+") || s.token == "-") <==>
            (s.kind == Delimiter && (s.token == "+" || s.token == "-"))
  {
  }

  /** An empty or whitespace-only statement has no expression: `evaluate` returns `null`. */
  lemma BlankIsRejected(statement: string)
    requires forall k | 0 <= k < |statement| :: IsWhitespace(statement[k])
    ensures Calculate(statement) == Err(NoExpression)
    ensures Evaluate(statement) == None
  {
    SpaceIsSkipped(statement, 0, |statement|);
  }

  /**
   * A statement whose first character after any whitespace is unrecognised
   * has no expression: the first token is already the end of expression.
   */
  lemma UnrecognisedStartIsRejected(statement: string, p: nat)
    requires p < |statement| && Unrecognised(statement[p])
    requires forall k | 0 <= k < p :: IsWhitespace(statement[k])
    ensures Calculate(statement) == Err(NoExpression)
  {
    SpaceIsSkipped(statement, 0, p);
    FirstCharacter(statement, p);
  }
}
