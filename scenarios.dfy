/**
 * What `calculate` computes on statements of a few fixed shapes, over any
 * number literals: precedence, left-to-right grouping, the sign, brackets and
 * the double division; and on a handful of concrete statements.
 */
module Scenarios {
  import opened Outcomes
  import opened Lexer
  import opened Evaluator
  import opened Grammar
  import NumberLiteral

  /** A number literal that `Double.parseDouble` accepts. */
  predicate IsLiteral(x: string) {
    TokenShape(x, Number) && NumberLiteral.ParseDouble(x).Some?
  }

  /** The value of such a literal. */
  function Value(x: string): real
    requires IsLiteral(x)
  {
    NumberLiteral.ParseDouble(x).value
  }

  /** A literal as an operand without a sign. */
  function Operand(x: string): Factor {
    Bare(Literal(x))
  }

  /** A literal as a whole product. */
  function Single(x: string): Term {
    TermOf(Operand(x))
  }

  /** A literal operand is well formed, prints as itself and has its value. */
  lemma SingleFacts(x: string)
    requires IsLiteral(x)
    ensures WfFactor(Operand(x)) && WfTerm(Single(x))
    ensures PrintFactor(Operand(x), "") == x && PrintTerm(Single(x), "") == x
    ensures EvalFactor(Operand(x)) == Ok(Value(x)) && EvalTerm(Single(x)) == Ok(Value(x))
  {
  }

  /** A statement printed without gaps evaluates as its tree. */
  lemma Evaluates(e: Sum)
    requires WfSum(e)
    ensures Calculate(PrintSum(e, "")) == EvalSum(e)
  {
    EvaluatesPrinted("", "", e, "");
    assert "" + PrintSum(e, "") + "" == PrintSum(e, "");
  }

  /** `*` binds more tightly than `+`: "x+y*z" is x + (y * z). */
  lemma ProductBindsTighter(x: string, y: string, z: string)
    requires IsLiteral(x) && IsLiteral(y) && IsLiteral(z)
    ensures Calculate(x + "+" + y + "*" + z) == Ok(Value(x) + Value(y) * Value(z))
  {
    SingleFacts(x); SingleFacts(y); SingleFacts(z);
    var e := Plus(SumOf(Single(x)), Times(Single(y), Operand(z)));
    Evaluates(e);
    assert PrintSum(e, "") == x + "+" + y + "*" + z;
  }

  /** `-` groups from the left: "x-y-z" is (x - y) - z. */
  lemma SubtractionGroupsLeft(x: string, y: string, z: string)
    requires IsLiteral(x) && IsLiteral(y) && IsLiteral(z)
    ensures Calculate(x + "-" + y + "-" + z) == Ok((Value(x) - Value(y)) - Value(z))
  {
    SingleFacts(x); SingleFacts(y); SingleFacts(z);
    var l := Minus(SumOf(Single(x)), Single(y));
    var e := Minus(l, Single(z));
    Evaluates(e);
    assert PrintSum(l, "") == x + "-" + y;
    assert PrintSum(e, "") == PrintSum(l, "") + "-" + z;
    assert EvalSum(l) == Ok(Value(x) - Value(y));
  }

  /**
   * `*` and `/` group from the left, and `/` divides twice: "x*y/z" is
   * (x * y) / z / z, and fails when z is zero.
   */
  lemma ProductThenQuotient(x: string, y: string, z: string)
    requires IsLiteral(x) && IsLiteral(y) && IsLiteral(z)
    ensures Value(z) == 0.0 ==> Calculate(x + "*" + y + "/" + z) == Err(DivisionByZero)
    ensures Value(z) != 0.0 ==>
      Calculate(x + "*" + y + "/" + z) == Ok(Value(x) * Value(y) / Value(z) / Value(z))
  {
    SingleFacts(x); SingleFacts(y); SingleFacts(z);
    var l := Times(Single(x), Operand(y));
    var e := SumOf(Over(l, Operand(z)));
    Evaluates(e);
    assert PrintTerm(l, "") == x + "*" + y;
    assert PrintSum(e, "") == PrintTerm(l, "") + "/" + z;
    assert EvalTerm(l) == Ok(Product(Value(x), Value(y)));
  }

  /** "x*y" is x * y. */
  lemma ProductOf(x: string, y: string)
    requires IsLiteral(x) && IsLiteral(y)
    ensures Calculate(x + "*" + y) == Ok(Value(x) * Value(y))
  {
    SingleFacts(x); SingleFacts(y);
    var e := SumOf(Times(Single(x), Operand(y)));
    Evaluates(e);
    assert PrintSum(e, "") == x + "*" + y;
  }

  /** A literal alone is its value. */
  lemma LiteralAlone(x: string)
    requires IsLiteral(x)
    ensures Calculate(x) == Ok(Value(x))
  {
    SingleFacts(x);
    var e := SumOf(Single(x));
    assert WfSum(e) && PrintSum(e, "") == x && EvalSum(e) == Ok(Value(x));
    Evaluates(e);
  }

  /** A NUMBER token that `Double.parseDouble` refuses makes the statement fail. */
  lemma MalformedLiteral(x: string)
    requires TokenShape(x, Number) && NumberLiteral.ParseDouble(x).None?
    ensures Calculate(x) == Err(MalformedNumber)
  {
    var e := SumOf(Single(x));
    assert WfPrimary(Literal(x)) && WfFactor(Operand(x)) && WfTerm(Single(x)) && WfSum(e);
    assert PrintFactor(Operand(x), "") == x;
    assert PrintTerm(Single(x), "") == x;
    assert PrintSum(e, "") == x;
    assert EvalPrimary(Literal(x)) == Err(MalformedNumber);
    assert EvalFactor(Operand(x)) == EvalTerm(Single(x)) == EvalSum(e) == Err(MalformedNumber);
    Evaluates(e);
  }

  /** "x/y" fails when y is zero and is otherwise x / y / y. */
  lemma QuotientDividesTwice(x: string, y: string)
    requires IsLiteral(x) && IsLiteral(y)
    ensures Value(y) == 0.0 ==> Calculate(x + "/" + y) == Err(DivisionByZero)
    ensures Value(y) != 0.0 ==> Calculate(x + "/" + y) == Ok(Value(x) / Value(y) / Value(y))
  {
    SingleFacts(x); SingleFacts(y);
    var e := SumOf(Over(Single(x), Operand(y)));
    Evaluates(e);
    assert PrintSum(e, "") == x + "/" + y;
  }

  /** A leading `-` negates its operand, and binds more tightly than `*`: "-x*y" is (-x) * y. */
  lemma SignBindsTighter(x: string, y: string)
    requires IsLiteral(x) && IsLiteral(y)
    ensures Calculate("-" + x + "*" + y) == Ok(-Value(x) * Value(y))
  {
    SingleFacts(x); SingleFacts(y);
    var l := TermOf(Negative(Literal(x)));
    var e := SumOf(Times(l, Operand(y)));
    assert PrintFactor(Negative(Literal(x)), "") == "-" + "" + x == "-" + x;
    assert EvalPrimary(Literal(x)) == Ok(Value(x));
    assert EvalTerm(l) == EvalFactor(Negative(Literal(x))) == Ok(-Value(x));
    assert WfFactor(Negative(Literal(x))) && WfTerm(l) && WfSum(e);
    Evaluates(e);
    assert PrintTerm(l, "") == "-" + x;
    assert PrintSum(e, "") == PrintTerm(l, "") + "*" + y == "-" + x + "*" + y;
    assert EvalSum(e) == Ok(Product(-Value(x), Value(y)));
    assert Calculate("-" + x + "*" + y) == EvalSum(e);
    assert Product(-Value(x), Value(y)) == -Value(x) * Value(y);
  }

  /** A sign after a binary operator is the sign of the next operand: "x--y" is x - (-y). */
  lemma MinusNegative(x: string, y: string)
    requires IsLiteral(x) && IsLiteral(y)
    ensures Calculate(x + "--" + y) == Ok(Value(x) - -Value(y))
  {
    SingleFacts(x); SingleFacts(y);
    var r := TermOf(Negative(Literal(y)));
    var e := Minus(SumOf(Single(x)), r);
    assert PrintFactor(Negative(Literal(y)), "") == "-" + "" + y == "-" + y;
    assert EvalPrimary(Literal(y)) == Ok(Value(y));
    assert EvalTerm(r) == EvalFactor(Negative(Literal(y))) == Ok(-Value(y));
    assert WfFactor(Negative(Literal(y))) && WfTerm(r) && WfSum(e);
    assert EvalSum(e) == Ok(Value(x) - -Value(y));
    Evaluates(e);
    assert PrintTerm(r, "") == "-" + y;
    assert PrintSum(e, "") == x + "" + "-" + "" + ("-" + y) == x + "--" + y;
  }

  /** Brackets override precedence: "(x+y)*z" is (x + y) * z. */
  lemma BracketsGroupFirst(x: string, y: string, z: string)
    requires IsLiteral(x) && IsLiteral(y) && IsLiteral(z)
    ensures Calculate("(" + x + "+" + y + ")" + "*" + z) == Ok((Value(x) + Value(y)) * Value(z))
  {
    SingleFacts(x); SingleFacts(y); SingleFacts(z);
    var inner := Plus(SumOf(Single(x)), Single(y));
    var l := TermOf(Bare(Parens(inner)));
    var e := SumOf(Times(l, Operand(z)));
    assert PrintSum(inner, "") == x + "+" + y;
    assert EvalSum(SumOf(Single(x))) == Ok(Value(x));
    assert EvalSum(inner) == Ok(Value(x) + Value(y));
    assert WfSum(SumOf(Single(x))) && WfSum(inner) && WfPrimary(Parens(inner));
    assert WfFactor(Bare(Parens(inner))) && WfTerm(l) && WfSum(e);
    assert PrintPrimary(Parens(inner), "") == "(" + "" + PrintSum(inner, "") + "" + ")";
    assert PrintTerm(l, "") == "(" + PrintSum(inner, "") + ")";
    Evaluates(e);
    assert "(" + (x + "+" + y) + ")" + "*" + z == "(" + x + "+" + y + ")" + "*" + z;
    assert PrintSum(e, "") == PrintTerm(l, "") + "*" + z == "(" + x + "+" + y + ")" + "*" + z;
    assert EvalTerm(l) == EvalFactor(Bare(Parens(inner))) == EvalPrimary(Parens(inner));
    assert EvalTerm(l) == Ok(Value(x) + Value(y));
    assert EvalSum(e) == Ok(Product(Value(x) + Value(y), Value(z)));
    assert Calculate("(" + x + "+" + y + ")" + "*" + z) == EvalSum(e);
    assert Product(Value(x) + Value(y), Value(z)) == (Value(x) + Value(y)) * Value(z);
  }

  // ----- Concrete statements -----------------------------------------------

  /** The value of a digit. */
  function DigitValue(d: char): real {
    (d as int - '0' as int) as real
  }

  /** The value of `a.b` for digits a and b. */
  function DecimalValue(a: char, b: char): real {
    (10 * (a as int - '0' as int) + (b as int - '0' as int)) as real / 10.0
  }

  /** A single digit is a literal whose value is that digit. */
  lemma DigitLiteral(d: char)
    requires IsDigit(d)
    ensures IsLiteral([d]) && Value([d]) == DigitValue(d)
  {
    NumberLiteral.ParsesDigits([d]);
    assert [d][..0] == [];
  }

  /** `a.b` with one digit on each side of the point is a literal with value ab / 10. */
  lemma OneDecimalLiteral(a: char, b: char)
    requires IsDigit(a) && IsDigit(b)
    ensures IsLiteral([a, '.', b])
    ensures Value([a, '.', b]) == DecimalValue(a, b)
  {
    NumberLiteral.ParsesDecimal([a], [b]);
    assert [a] + "." + [b] == [a, '.', b];
    assert ([a] + [b])[..1] == [a] && [a][..0] == [];
    var n := 10 * (a as int - '0' as int) + (b as int - '0' as int);
    assert ([a] + [b])[1] == b;
    assert NumberLiteral.DigitsValue([a]) == a as int - '0' as int;
    assert NumberLiteral.DigitsValue([a] + [b]) == n;
    assert NumberLiteral.Pow10(0) == 1 && NumberLiteral.Pow10(1) == 10;
    assert NumberLiteral.Scaled(n, 0, 1) == n as real / 10.0;
  }

  /** `a.b.c` is one NUMBER token, which `Double.parseDouble` refuses. */
  lemma TwoPointsLiteral(a: char, b: char, c: char)
    requires IsDigit(a) && IsDigit(b) && IsDigit(c)
    ensures TokenShape([a, '.', b, '.', c], Number)
    ensures NumberLiteral.ParseDouble([a, '.', b, '.', c]).None?
  {
    NumberLiteral.RejectsSecondPoint([a], [b], [c]);
    assert [a] + "." + [b] + "." + [c] == [a, '.', b, '.', c];
  }

  lemma DigitValues()
    ensures IsLiteral("0") && Value("0") == 0.0
    ensures IsLiteral("1") && Value("1") == 1.0
    ensures IsLiteral("2") && Value("2") == 2.0
    ensures IsLiteral("3") && Value("3") == 3.0
    ensures IsLiteral("8") && Value("8") == 8.0
  {
    DigitLiteral('0');
    DigitLiteral('1');
    DigitLiteral('2');
    DigitLiteral('3');
    DigitLiteral('8');
  }

  lemma OnePlusTwoTimesThree()
    ensures Calculate("1+2*3") == Ok(7.0)
  {
    DigitValues();
    ProductBindsTighter("1", "2", "3");
    assert "1" + "+" + "2" + "*" + "3" == "1+2*3";
  }

  lemma BracketedSumTimesThree()
    ensures Calculate("(1+2)*3") == Ok(9.0)
  {
    DigitValues();
    BracketsGroupFirst("1", "2", "3");
    assert "(" + "1" + "+" + "2" + ")" + "*" + "3" == "(1+2)*3";
  }

  /** "8/2" is 2, not 4: the dividend is divided by 2 twice. */
  lemma EightOverTwo()
    ensures Calculate("8/2") == Ok(2.0)
    ensures Evaluate("8/2") == Some(2.0)
  {
    DigitValues();
    QuotientDividesTwice("8", "2");
    assert "8" + "/" + "2" == "8/2";
  }

  lemma OneOverZero()
    ensures Calculate("1/0") == Err(DivisionByZero)
    ensures Evaluate("1/0") == None
  {
    DigitValues();
    QuotientDividesTwice("1", "0");
    assert "1" + "/" + "0" == "1/0";
  }

  /** "4.5" is 4.5. */
  lemma DecimalAlone()
    ensures Calculate("4.5") == Ok(4.5)
  {
    OneDecimalLiteral('4', '5');
    LiteralAlone(['4', '.', '5']);
    assert ['4', '.', '5'] == "4.5";
    assert DecimalValue('4', '5') == 4.5;
  }

  /** A number token with two decimal points is read whole and then refused by the conversion. */
  lemma TwoDecimalPoints()
    ensures Calculate("4.5.6") == Err(MalformedNumber)
  {
    TwoPointsLiteral('4', '5', '6');
    MalformedLiteral("4.5.6");
  }

  /** "1--5" is 1 - (-5): the first `-` is the operator, the second the sign of 5. */
  lemma OneMinusMinusFive()
    ensures Calculate("1--5") == Ok(6.0)
  {
    DigitLiteral('1');
    DigitLiteral('5');
    MinusNegative("1", "5");
    assert "1" + "--" + "5" == "1--5";
  }

  lemma DoubleMinus()
    ensures Calculate("--5") == Err(NotANumber)
    ensures Evaluate("--5") == None
  {
    TwoSignsAreRejected("", '-', "", '-', "5");
    assert "" + (['-'] + "" + ['-']) + "5" == "--5";
  }

  /** The tree of "1+2". */
  function OnePlusTwo(): Sum {
    Plus(SumOf(Single("1")), Single("2"))
  }

  lemma OnePlusTwoFacts()
    ensures WfSum(OnePlusTwo()) && PrintSum(OnePlusTwo(), "") == "1+2" && EvalSum(OnePlusTwo()) == Ok(3.0)
  {
    DigitValues();
    SingleFacts("1");
    SingleFacts("2");
    var l := SumOf(Single("1"));
    assert WfSum(l) && PrintSum(l, "") == "1" && EvalSum(l) == Ok(1.0);
    assert PrintSum(OnePlusTwo(), "") == "1" + "" + "+" + "" + "2";
  }

  lemma MissingClose()
    ensures Calculate("(1+2") == Err(UnclosedBracket)
  {
    OnePlusTwoFacts();
    UnclosedBracketIsRejected("", "", OnePlusTwo(), "");
    assert "" + ("(" + "" + "1+2") + "" == "(1+2";
  }

  lemma ExtraClose()
    ensures Calculate("1+2)") == Err(TrailingToken)
  {
    OnePlusTwoFacts();
    TrailingDelimiterIsRejected("", "", OnePlusTwo(), ')', "");
    assert "" + "1+2" + ("" + [')'] + "") == "1+2)";
  }

  lemma StrayEquals()
    ensures Calculate("1+2=3") == Err(TrailingToken)
  {
    OnePlusTwoFacts();
    TrailingDelimiterIsRejected("", "", OnePlusTwo(), '=', "3");
    assert "" + "1+2" + ("" + ['='] + "3") == "1+2=3";
  }

  lemma Blank()
    ensures Evaluate("") == None && Evaluate("   ") == None
  {
    BlankIsRejected("");
    BlankIsRejected("   ");
  }

  /**
   * An unrecognised character set off from a complete expression by a gap or
   * a `)` ends it: "(1)a" is 1, and so is "(1)a=", whose `=` is never read.
   */
  lemma TrailingLetter()
    ensures Calculate("(1)a") == Ok(1.0)
    ensures Calculate("(1)a=") == Ok(1.0)
  {
    var inner := SumOf(Single("1"));
    var e := SumOf(TermOf(Bare(Parens(inner))));
    DigitValues();
    SingleFacts("1");
    assert WfSum(inner) && PrintSum(inner, "") == "1" && EvalSum(inner) == Ok(1.0);
    assert PrintPrimary(Parens(inner), "") == "(" + "" + "1" + "" + ")";
    assert WfSum(e) && PrintSum(e, "") == "(1)" && EvalSum(e) == Ok(1.0);
    UnrecognisedTailIsIgnored("", "", e, 'a', "");
    assert "" + "(1)" + ("" + ['a'] + "") == "(1)a";
    UnrecognisedTailIsIgnored("", "", e, 'a', "=");
    assert "" + "(1)" + ("" + ['a'] + "=") == "(1)a=";
  }

  /**
   * A letter right after a digit continues the number; unless it is a type
   * suffix or starts an exponent, the conversion refuses it: "1a" fails.
   */
  lemma LetterJoinsNumber()
    ensures Calculate("1a") == Err(MalformedNumber)
    ensures Evaluate("1a") == None
  {
    assert TokenShape("1a", Number);
    assert NumberLiteral.DigitRun("1a", 1) == 1;
    assert NumberLiteral.DigitRun("1a", 0) == 1;
    assert NumberLiteral.TrimEnd("1a") == "1a";
    assert NumberLiteral.ParseTrimmed("1a") == None;
    NumberLiteral.ParseDoubleTrims("1a");
    assert NumberLiteral.TrimStart("1a") == "1a";
    MalformedLiteral("1a");
  }

  /** A type suffix continues the number and is accepted: "1f" is 1. */
  lemma SuffixLiteral()
    ensures Calculate("1f") == Ok(1.0)
  {
    NumberLiteral.ParsesSuffixed("1", 'f');
    assert "1" + ['f'] == "1f";
    assert NumberLiteral.DigitsValue("1") == 1;
    assert NumberLiteral.ParseDouble("1f") == Some(1.0);
    assert !IsDelim('f') && TokenShape("1f", Number);
    assert IsLiteral("1f") && Value("1f") == 1.0;
    LiteralAlone("1f");
  }

  /** An exponent continues the number and is accepted: "2e1" is 20. */
  lemma ExponentLiteral()
    ensures Calculate("2e1") == Ok(20.0)
  {
    NumberLiteral.ParsesExponent("2", "1");
    assert "2" + "e" + "1" == "2e1";
    assert NumberLiteral.DigitsValue("2") == 2 && NumberLiteral.DigitsValue("1") == 1;
    assert NumberLiteral.Pow10(1) == 10;
    assert NumberLiteral.Scaled(2, 1, 0) == 20.0;
    LiteralAlone("2e1");
  }

  /** A `=` where an operand is wanted is not a number: "=1" fails. */
  lemma EqualsAsOperand()
    ensures Calculate("=1") == Err(NotANumber)
  {
    DelimiterToken("=1", 0);
    assert Start("=1") == At("=1", 0);
    NumberWanted(Start("=1"));
    assert UnarySign(Start("=1")) == EvalBrackets(Start("=1"));
    StartFails("=1");
  }

  /** An unrecognised character at the start leaves no expression: "a" is rejected. */
  lemma LetterAlone()
    ensures Calculate("a") == Err(NoExpression)
  {
    UnrecognisedStartIsRejected("a", 0);
  }

  /** An unrecognised character where an operand is wanted fails: "1+a" has no second operand. */
  lemma LetterOperand()
    ensures Calculate("1+a") == Err(NotANumber)
    ensures Evaluate("1+a") == None
  {
    DigitValues();
    SingleFacts("1");
    var e := SumOf(Single("1"));
    assert WfSum(e) && PrintSum(e, "") == "1" && EvalSum(e) == Ok(1.0);
    OperandMissingIsRejected("", "", e, '+', 'a', "");
    assert "" + "1" + ("" + ['+'] + "" + ['a'] + "") == "1+a";
  }

  // ----- The example in the documentation of `evaluate` -------------------

  /**
   * The statement the documentation of `evaluate` and `calculate` gives as
   * an example. Its spacing is mixed (none inside the brackets), so it is
   * not the print of a tree with one gap, and it is assembled here from the
   * procedures' steps.
   */
  const Documented: string := "(1 + 38) * 4.5 - 1 / 2."

  lemma ThirtyEightLiteral()
    ensures IsLiteral("38") && Value("38") == 38.0
  {
    NumberLiteral.ParsesDigits("38");
    assert "38"[..1] == "3" && "3"[..0] == "";
    assert NumberLiteral.DigitsValue("38") == 38;
  }

  lemma TwoPointLiteral()
    ensures IsLiteral("2.") && Value("2.") == 2.0
  {
    NumberLiteral.ParsesDecimal("2", "");
    assert "2" + "." + "" == "2." && "2" + "" == "2";
    assert NumberLiteral.DigitsValue("2") == 2;
    assert NumberLiteral.Pow10(0) == 1;
  }

  /** The characters of the documented example that its steps read, in any expression that holds them. */
  predicate DocumentedLayout(exp: string) {
    && |exp| == 23 && exp[0] == '(' && Occurs(exp, 1, "1 + 38") && exp[7] == ')'
    && exp[8] == ' ' && exp[9] == '*' && exp[10] == ' ' && Occurs(exp, 11, "4.5")
    && exp[14] == ' ' && exp[15] == '-' && exp[16] == ' ' && Occurs(exp, 17, "1 / 2.")
  }

  /** The sum "1 + 38" inside the brackets is 39, and `)` follows it. */
  lemma DocumentedInner(exp: string)
    requires DocumentedLayout(exp)
    ensures At(exp, 7) == State(exp, 8, ")", Delimiter)
    ensures AddOrSubtract(At(exp, 1)) == Continue(Ok(39.0), At(exp, 7))
  {
    var e := Plus(SumOf(Single("1")), Single("38"));
    DigitLiteral('1');
    ThirtyEightLiteral();
    SingleFacts("1");
    SingleFacts("38");
    assert PrintSum(e, " ") == "1" + " " + "+" + " " + "38" == "1 + 38";
    DelimiterToken(exp, 7);
    assert WfSum(e) && EvalSum(e) == Ok(39.0);
    ParseSum(exp, 1, 7, " ", e);
    SumStops(Ok(39.0), At(exp, 7));
  }

  /** The bracket "(1 + 38)" is 39, and the `*` after the gap is the next token. */
  lemma DocumentedBrackets(exp: string)
    requires DocumentedLayout(exp)
    ensures At(exp, 8) == State(exp, 10, "*", Delimiter)
    ensures UnarySign(At(exp, 0)) == Continue(Ok(39.0), At(exp, 8))
  {
    DelimiterToken(exp, 0);
    DocumentedInner(exp);
    BracketStep(At(exp, 0), At(exp, 7), Ok(39.0));
    assert Occurs(exp, 8, " ");
    OperatorAt(exp, 8, " ", '*');
    assert EvalBrackets(At(exp, 0)) == Ok(Step(39.0, At(exp, 8)));
  }

  /** The product "(1 + 38) * 4.5" is 175.5, and the `-` after the gap is the next token. */
  lemma DocumentedProduct(exp: string)
    requires DocumentedLayout(exp)
    ensures At(exp, 14) == State(exp, 16, "-", Delimiter)
    ensures DivideOrMultiply(At(exp, 0)) == Continue(Ok(175.5), At(exp, 14))
  {
    DocumentedBrackets(exp);
    TermEntry(At(exp, 0), At(exp, 8), Ok(39.0));
    OneDecimalLiteral('4', '5');
    assert ['4', '.', '5'] == "4.5";
    SingleFacts("4.5");
    ParseFactor(exp, 11, 14, " ", Operand("4.5"));
    assert Occurs(exp, 10, " ") && Occurs(exp, 14, " ");
    GapAt(exp, 10, " ");
    MulStep(39.0, At(exp, 8), At(exp, 14), Ok(4.5));
    assert Product(39.0, 4.5) == 175.5;
    OperatorAt(exp, 14, " ", '-');
    TermStops(Ok(175.5), At(exp, 14));
  }

  /** The tree of "1 / 2.": it prints with single spaces and is 1 / 2 / 2. */
  lemma OneOverTwoPoint()
    ensures WfTerm(Over(Single("1"), Operand("2.")))
    ensures PrintTerm(Over(Single("1"), Operand("2.")), " ") == "1 / 2."
    ensures EvalTerm(Over(Single("1"), Operand("2."))) == Ok(0.25)
  {
    var t := Over(Single("1"), Operand("2."));
    DigitLiteral('1');
    TwoPointLiteral();
    SingleFacts("1");
    SingleFacts("2.");
    assert PrintTerm(t, " ") == "1" + " " + "/" + " " + "2." == "1 / 2.";
    assert Quotient(1.0, 2.0) == 0.25 by {
      assert Divided(1.0, 2.0) == 0.5;
      assert Divided(0.5, 2.0) == 0.25;
    }
  }

  /** The product "1 / 2." after the `-` is 1 / 2 / 2, and it ends the statement. */
  lemma DocumentedQuotient(exp: string)
    requires DocumentedLayout(exp)
    ensures At(exp, 23).token == EOE
    ensures DivideOrMultiply(At(exp, 16)) == Continue(Ok(0.25), At(exp, 23))
  {
    OneOverTwoPoint();
    ParseTerm(exp, 17, 23, " ", Over(Single("1"), Operand("2.")));
    assert Occurs(exp, 16, " ");
    GapAt(exp, 16, " ");
    EndIsEnd(exp);
    EndEndsSum(At(exp, 23));
    TermStops(Ok(0.25), At(exp, 23));
  }

  /** The whole statement: 39 * 4.5 - 1 / 2 / 2. */
  lemma DocumentedSum(exp: string)
    requires DocumentedLayout(exp)
    ensures Calculate(exp) == Ok(175.25)
  {
    DocumentedProduct(exp);
    DocumentedQuotient(exp);
    SumEntry(At(exp, 0), At(exp, 14), Ok(175.5));
    assert Advance(At(exp, 14)) == At(exp, 16);
    AddStep(175.5, At(exp, 14), At(exp, 23), Ok(0.25));
    assert AddOperand(175.5, '-', Ok(0.25)) == Ok(175.25);
    SumStops(Ok(175.25), At(exp, 23));
    assert AddOrSubtract(At(exp, 0)) == Ok(Step(175.25, At(exp, 23)));
    DelimiterToken(exp, 0);
    assert Start(exp) == At(exp, 0) && Start(exp).token == "(";
  }

  /**
   * The documented example "(1 + 38) * 4.5 - 1 / 2." is 39 * 4.5 - 1 / 2 / 2,
   * that is 175.25: the double division makes the last product 0.25, not 0.5.
   */
  lemma DocumentedExample()
    ensures Calculate(Documented) == Ok(175.25)
    ensures Evaluate(Documented) == Some(175.25)
  {
    assert DocumentedLayout(Documented);
    DocumentedSum(Documented);
  }
}
