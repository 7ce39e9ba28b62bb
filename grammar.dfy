/**
 * The grammar that the procedures of CalculatorImpl recognise, as syntax
 * trees, with a printer and an ordinary evaluator over the trees; and the
 * theorem that the single-pass evaluator computes, on the printed text,
 * exactly what the tree evaluator computes.
 *
 *   sum     = term { ('+' | '-') term }        addOrSubtract
 *   term    = factor { ('*' | '/') factor }    divideOrMultiply
 *   factor  = [ '+' | '-' ] primary            unarySign
 *   primary = '(' sum ')' | number             evalBrackets, valueOfNumber
 *
 * Sums and terms are left-nested trees, so their shape is the left-to-right
 * grouping of the operators; the printer puts the gap `g` (a run of spaces)
 * between tokens.
 */
module Grammar {
  import opened Outcomes
  import opened Lexer
  import opened Evaluator
  import NumberLiteral

  datatype Sum = SumOf(term: Term) | Plus(left: Sum, right: Term) | Minus(left: Sum, right: Term)
  datatype Term = TermOf(factor: Factor) | Times(left: Term, right: Factor) | Over(left: Term, right: Factor)
  datatype Factor = Bare(primary: Primary) | Positive(primary: Primary) | Negative(primary: Primary)
  datatype Primary = Literal(text: string) | Parens(sum: Sum)

  /** Every literal has the shape of a NUMBER token. */
  predicate WfSum(e: Sum) {
    match e
    case SumOf(t) => WfTerm(t)
    case Plus(l, r) => WfSum(l) && WfTerm(r)
    case Minus(l, r) => WfSum(l) && WfTerm(r)
  }

  predicate WfTerm(t: Term) {
    match t
    case TermOf(f) => WfFactor(f)
    case Times(l, r) => WfTerm(l) && WfFactor(r)
    case Over(l, r) => WfTerm(l) && WfFactor(r)
  }

  predicate WfFactor(f: Factor) {
    WfPrimary(f.primary)
  }

  predicate WfPrimary(p: Primary) {
    match p
    case Literal(text) => TokenShape(text, Number)
    case Parens(e) => WfSum(e)
  }

  /** A gap between tokens: spaces only. */
  predicate Gap(g: string) {
    forall k | 0 <= k < |g| :: g[k] == ' '
  }

  function PrintSum(e: Sum, g: string): string {
    match e
    case SumOf(t) => PrintTerm(t, g)
    case Plus(l, r) => PrintSum(l, g) + g + "+" + g + PrintTerm(r, g)
    case Minus(l, r) => PrintSum(l, g) + g + "-" + g + PrintTerm(r, g)
  }

  function PrintTerm(t: Term, g: string): string {
    match t
    case TermOf(f) => PrintFactor(f, g)
    case Times(l, r) => PrintTerm(l, g) + g + "*" + g + PrintFactor(r, g)
    case Over(l, r) => PrintTerm(l, g) + g + "/" + g + PrintFactor(r, g)
  }

  function PrintFactor(f: Factor, g: string): string {
    match f
    case Bare(p) => PrintPrimary(p, g)
    case Positive(p) => "+" + g + PrintPrimary(p, g)
    case Negative(p) => "-" + g + PrintPrimary(p, g)
  }

  function PrintPrimary(p: Primary, g: string): string {
    match p
    case Literal(text) => text
    case Parens(e) => "(" + g + PrintSum(e, g) + g + ")"
  }

  /**
   * The value of a tree, operands left to right; the first failure wins.
   * A `/` with a zero right operand fails, and otherwise divides twice, as
   * `divideOrMultiply` does.
   */
  function EvalSum(e: Sum): Result<real> {
    match e
    case SumOf(t) => EvalTerm(t)
    case Plus(l, r) =>
      var a, b := EvalSum(l), EvalTerm(r);
      if a.Err? then a else if b.Err? then b else Ok(a.value + b.value)
    case Minus(l, r) =>
      var a, b := EvalSum(l), EvalTerm(r);
      if a.Err? then a else if b.Err? then b else Ok(a.value - b.value)
  }

  function EvalTerm(t: Term): Result<real> {
    match t
    case TermOf(f) => EvalFactor(f)
    case Times(l, r) =>
      var a, b := EvalTerm(l), EvalFactor(r);
      if a.Err? then a else if b.Err? then b else Ok(Product(a.value, b.value))
    case Over(l, r) =>
      var a, b := EvalTerm(l), EvalFactor(r);
      if a.Err? then a else if b.Err? then b
      else if b.value == 0.0 then Err(DivisionByZero)
      else Ok(Quotient(a.value, b.value))
  }

  function EvalFactor(f: Factor): Result<real> {
    match f
    case Bare(p) => EvalPrimary(p)
    case Positive(p) => EvalPrimary(p)
    case Negative(p) =>
      var v := EvalPrimary(p);
      if v.Err? then v else Ok(-v.value)
  }

  function EvalPrimary(p: Primary): Result<real> {
    match p
    case Literal(text) =>
      (match NumberLiteral.ParseDouble(text)
       case None => Err(MalformedNumber)
       case Some(v) => Ok(v))
    case Parens(e) => EvalSum(e)
  }

  // ----- Positions in the expression --------------------------------------

  /** `w` is the text of `exp` from index `i` on. */
  predicate Occurs(exp: string, i: nat, w: string) {
    i + |w| <= |exp| && forall k | 0 <= k < |w| :: exp[i + k] == w[k]
  }

  /** A number literal that ends at `j` is not continued by the next character. */
  predicate Boundary(exp: string, j: nat)
    requires j <= |exp|
  {
    j == |exp| || IsDelim(exp[j]) || (0 < j && exp[j - 1] == ')')
  }

  lemma OccursSplit(exp: string, i: nat, a: string, b: string)
    requires Occurs(exp, i, a + b)
    ensures Occurs(exp, i, a) && Occurs(exp, i + |a|, b)
  {
    forall k | 0 <= k < |a|
      ensures exp[i + k] == a[k]
    {
      assert exp[i + k] == (a + b)[k];
    }
    forall k | 0 <= k < |b|
      ensures exp[i + |a| + k] == b[k]
    {
      assert exp[i + (|a| + k)] == (a + b)[|a| + k];
    }
  }

  /** A gap in front of a token is skipped. */
  lemma GapAt(exp: string, p: nat, g: string)
    requires Gap(g) && Occurs(exp, p, g)
    ensures At(exp, p) == At(exp, p + |g|)
  {
    forall k | p <= k < p + |g|
      ensures IsWhitespace(exp[k])
    {
      assert exp[k] == g[k - p];
    }
    SpaceIsSkipped(exp, p, p + |g|);
  }

  /** An operator or parenthesis after a gap is the next token. */
  lemma OperatorAt(exp: string, p: nat, g: string, op: char)
    requires Gap(g) && Occurs(exp, p, g) && IsDelim(op) && op != ' '
    requires p + |g| < |exp| && exp[p + |g|] == op
    ensures At(exp, p) == State(exp, p + |g| + 1, [op], Delimiter)
    ensures IsDelim(exp[p])
  {
    GapAt(exp, p, g);
    DelimiterToken(exp, p + |g|);
    if |g| > 0 {
      assert exp[p] == g[0];
    }
  }

  /** The pieces of `x g op g y` written at index `i`. */
  lemma InfixParts(exp: string, i: nat, x: string, g: string, op: char, y: string)
    requires Occurs(exp, i, x + g + [op] + g + y)
    ensures Occurs(exp, i, x) && Occurs(exp, i + |x|, g)
    ensures exp[i + |x| + |g|] == op
    ensures Occurs(exp, i + |x| + |g| + 1, g) && Occurs(exp, i + |x| + 2 * |g| + 1, y)
  {
    OccursSplit(exp, i, x + g + [op] + g, y);
    OccursSplit(exp, i, x + g + [op], g);
    OccursSplit(exp, i, x + g, [op]);
    OccursSplit(exp, i, x, g);
    assert exp[i + |x| + |g| + 0] == [op][0];
  }

  /**
   * The tokens of `g op g y` written at `k`, after the left operand of an
   * infix operator: the operand ends at a boundary, the operator is the token
   * there, and the token after it is the first one of `y`.
   */
  lemma OperatorLayout(exp: string, k: nat, g: string, op: char, y: string)
    requires Gap(g) && IsDelim(op) && op != ' '
    requires Occurs(exp, k, g + [op] + g + y)
    ensures Occurs(exp, k + 2 * |g| + 1, y)
    ensures Boundary(exp, k)
    ensures At(exp, k) == State(exp, k + |g| + 1, [op], Delimiter)
    ensures Advance(At(exp, k)) == At(exp, k + 2 * |g| + 1)
  {
    assert [] + g + [op] + g + y == g + [op] + g + y;
    InfixParts(exp, k, [], g, op, y);
    OperatorAt(exp, k, g, op);
    GapAt(exp, k + |g| + 1, g);
  }

  /** The pieces of `op g x` written at index `i`. */
  lemma PrefixParts(exp: string, i: nat, op: char, g: string, x: string)
    requires Occurs(exp, i, [op] + g + x)
    ensures i < |exp| && exp[i] == op
    ensures Occurs(exp, i + 1, g) && Occurs(exp, i + 1 + |g|, x)
  {
    OccursSplit(exp, i, [op] + g, x);
    OccursSplit(exp, i, [op], g);
    assert exp[i + 0] == [op][0];
  }

  /** The tokens of a sign or an opening bracket written at `i` as `op g x`. */
  lemma PrefixLayout(exp: string, i: nat, op: char, g: string, x: string)
    requires Gap(g) && IsDelim(op) && op != ' '
    requires Occurs(exp, i, [op] + g + x)
    ensures Occurs(exp, i + 1 + |g|, x)
    ensures At(exp, i) == State(exp, i + 1, [op], Delimiter)
    ensures Advance(At(exp, i)) == At(exp, i + 1 + |g|)
  {
    PrefixParts(exp, i, op, g, x);
    DelimiterToken(exp, i);
    GapAt(exp, i + 1, g);
  }

  /** The tokens of a bracketed text `( g x g )` written at `i`. */
  lemma ParensLayout(exp: string, i: nat, g: string, x: string)
    requires Gap(g) && Occurs(exp, i, "(" + g + x + g + ")")
    ensures Occurs(exp, i + 1 + |g|, x)
    ensures Boundary(exp, i + 1 + |g| + |x|)
    ensures At(exp, i) == State(exp, i + 1, "(", Delimiter)
    ensures Advance(At(exp, i)) == At(exp, i + 1 + |g|)
    ensures At(exp, i + 1 + |g| + |x|) == State(exp, i + 2 * |g| + |x| + 2, ")", Delimiter)
  {
    OccursSplit(exp, i, "(" + g + x + g, ")");
    OccursSplit(exp, i, "(" + g + x, g);
    PrefixLayout(exp, i, '(', g, x);
    var js := i + 1 + |g| + |x|;
    assert exp[js + |g| + 0] == ")"[0];
    OperatorAt(exp, js, g, ')');
  }

  // ----- The first token of a printed tree --------------------------------

  /** A character that can start a printed factor: a digit, a parenthesis or a sign. */
  predicate Opens(c: char) {
    IsDigit(c) || c == '(' || c == '+' || c == '-'
  }

  lemma FirstOfPrimary(p: Primary, g: string)
    requires WfPrimary(p)
    ensures |PrintPrimary(p, g)| > 0
    ensures IsDigit(PrintPrimary(p, g)[0]) || PrintPrimary(p, g)[0] == '('
  {
  }

  lemma FirstOfFactor(f: Factor, g: string)
    requires WfFactor(f)
    ensures |PrintFactor(f, g)| > 0
    ensures Opens(PrintFactor(f, g)[0])
  {
    FirstOfPrimary(f.primary, g);
  }

  lemma {:induction false} FirstOfTerm(t: Term, g: string)
    requires WfTerm(t)
    ensures |PrintTerm(t, g)| > 0
    ensures Opens(PrintTerm(t, g)[0])
  {
    match t
    case TermOf(f) => FirstOfFactor(f, g);
    case Times(l, r) => FirstOfTerm(l, g);
    case Over(l, r) => FirstOfTerm(l, g);
  }

  /** A printed sum starts with a digit, a parenthesis or a sign; never with the end of expression. */
  lemma {:induction false} FirstOfSum(e: Sum, g: string)
    requires WfSum(e)
    ensures |PrintSum(e, g)| > 0
    ensures Opens(PrintSum(e, g)[0])
  {
    match e
    case SumOf(t) => FirstOfTerm(t, g);
    case Plus(l, r) => FirstOfSum(l, g);
    case Minus(l, r) => FirstOfSum(l, g);
  }

  // ----- The evaluator on printed trees -----------------------------------

  /** A signed factor is its operand with the sign applied. */
  lemma SignCombines(f: Factor)
    requires f.Positive? || f.Negative?
    ensures EvalFactor(f) == SignApplied(f.Negative?, EvalPrimary(f.primary))
  {
  }

  /** A sum with an operator at its root is its left operand combined with its right one. */
  lemma SumCombines(e: Sum, s: State)
    requires e.Plus? || e.Minus?
    requires Valid(s)
    ensures EvalSum(e.left).Err? ==> ThenSum(EvalSum(e), s) == Err(EvalSum(e.left).failure)
    ensures EvalSum(e.left).Ok? ==>
      ThenSum(EvalSum(e), s) ==
      ThenSum(AddOperand(EvalSum(e.left).value, if e.Plus? then '+' else '-', EvalTerm(e.right)), s)
  {
  }

  /** A product with an operator at its root is its left operand combined with its right one. */
  lemma TermCombines(t: Term, s: State)
    requires t.Times? || t.Over?
    requires Valid(s)
    ensures EvalTerm(t.left).Err? ==> ThenTerm(EvalTerm(t), s) == Err(EvalTerm(t.left).failure)
    ensures EvalTerm(t.left).Ok? ==>
      ThenTerm(EvalTerm(t), s) ==
      ThenTerm(MulOperand(EvalTerm(t.left).value, if t.Times? then '*' else '/', EvalFactor(t.right)), s)
  {
  }

  /**
   * `addOrSubtract`, started on the first token of a sum printed from `i` to
   * `j`, computes the tree's value and continues with its loop on the token
   * after the sum; or it fails exactly as the tree evaluator does.
   */
  lemma {:induction false} ParseSum(exp: string, i: nat, j: nat, g: string, e: Sum)
    requires Gap(g) && WfSum(e) && Occurs(exp, i, PrintSum(e, g)) && j == i + |PrintSum(e, g)|
    requires Boundary(exp, j) && EndsTerm(At(exp, j))
    ensures AddOrSubtract(At(exp, i)) == ThenSum(EvalSum(e), At(exp, j))
    decreases e, 1
  {
    match e
    case SumOf(t) =>
      ParseTerm(exp, i, j, g, t);
      TermStops(EvalTerm(t), At(exp, j));
      SumEntry(At(exp, i), At(exp, j), EvalTerm(t));
    case Plus(_, _) =>
      ParseSumInfix(exp, i, j, g, e);
    case Minus(_, _) =>
      ParseSumInfix(exp, i, j, g, e);
  }

  /** The Plus and Minus cases of `ParseSum`. */
  lemma {:induction false} ParseSumInfix(exp: string, i: nat, j: nat, g: string, e: Sum)
    requires e.Plus? || e.Minus?
    requires Gap(g) && WfSum(e) && Occurs(exp, i, PrintSum(e, g)) && j == i + |PrintSum(e, g)|
    requires Boundary(exp, j) && EndsTerm(At(exp, j))
    ensures AddOrSubtract(At(exp, i)) == ThenSum(EvalSum(e), At(exp, j))
    decreases e, 0
  {
    var op := if e.Plus? then '+' else '-';
    var x := PrintSum(e.left, g);
    SumLayout(exp, i, g, e);
    assert At(exp, i + |x|).token[0] == op;
    ParseSum(exp, i, i + |x|, g, e.left);
    SumCombines(e, At(exp, j));
    if EvalSum(e.left).Ok? {
      SumStep(exp, i + |x|, j, g, op, e.right, EvalSum(e.left).value);
    }
  }

  /** The left operand, the operator and the right operand of a sum printed at `i`. */
  lemma SumLayout(exp: string, i: nat, g: string, e: Sum)
    requires e.Plus? || e.Minus?
    requires Gap(g) && Occurs(exp, i, PrintSum(e, g))
    ensures var x, y := PrintSum(e.left, g), PrintTerm(e.right, g);
      && Occurs(exp, i, x) && Boundary(exp, i + |x|)
      && Occurs(exp, i + |x|, g + [if e.Plus? then '+' else '-'] + g + y)
      && At(exp, i + |x|).token == [if e.Plus? then '+' else '-']
      && |PrintSum(e, g)| == |x| + 2 * |g| + 1 + |y|
  {
    var op := if e.Plus? then '+' else '-';
    var x, w := PrintSum(e.left, g), g + [op] + g + PrintTerm(e.right, g);
    assert PrintSum(e, g) == x + w;
    OccursSplit(exp, i, x, w);
    OperatorLayout(exp, i + |x|, g, op, PrintTerm(e.right, g));
  }

  /** One turn of the loop of `addOrSubtract` over the text `g op g r` written from `k` to `j`. */
  lemma SumStep(exp: string, k: nat, j: nat, g: string, op: char, r: Term, acc: real)
    requires op == '+' || op == '-'
    requires Gap(g) && WfTerm(r) && Occurs(exp, k, g + [op] + g + PrintTerm(r, g))
    requires j == k + 2 * |g| + 1 + |PrintTerm(r, g)|
    requires Boundary(exp, j) && EndsTerm(At(exp, j))
    ensures AddOrSubtractLoop(acc, At(exp, k)) == ThenSum(AddOperand(acc, op, EvalTerm(r)), At(exp, j))
    decreases r, 2
  {
    var m := k + 2 * |g| + 1;
    OperatorLayout(exp, k, g, op, PrintTerm(r, g));
    ParseTerm(exp, m, j, g, r);
    TermStops(EvalTerm(r), At(exp, j));
    AddStep(acc, At(exp, k), At(exp, j), EvalTerm(r));
  }

  /** `divideOrMultiply` on a product printed from `i` to `j`, in the same sense as `ParseSum`. */
  lemma {:induction false} ParseTerm(exp: string, i: nat, j: nat, g: string, t: Term)
    requires Gap(g) && WfTerm(t) && Occurs(exp, i, PrintTerm(t, g)) && j == i + |PrintTerm(t, g)|
    requires Boundary(exp, j)
    ensures DivideOrMultiply(At(exp, i)) == ThenTerm(EvalTerm(t), At(exp, j))
    decreases t, 1
  {
    match t
    case TermOf(f) =>
      ParseFactor(exp, i, j, g, f);
      TermEntry(At(exp, i), At(exp, j), EvalFactor(f));
    case Times(_, _) =>
      ParseTermInfix(exp, i, j, g, t);
    case Over(_, _) =>
      ParseTermInfix(exp, i, j, g, t);
  }

  /** The Times and Over cases of `ParseTerm`. */
  lemma {:induction false} ParseTermInfix(exp: string, i: nat, j: nat, g: string, t: Term)
    requires t.Times? || t.Over?
    requires Gap(g) && WfTerm(t) && Occurs(exp, i, PrintTerm(t, g)) && j == i + |PrintTerm(t, g)|
    requires Boundary(exp, j)
    ensures DivideOrMultiply(At(exp, i)) == ThenTerm(EvalTerm(t), At(exp, j))
    decreases t, 0
  {
    var op := if t.Times? then '*' else '/';
    var x := PrintTerm(t.left, g);
    TermLayout(exp, i, g, t);
    ParseTerm(exp, i, i + |x|, g, t.left);
    TermCombines(t, At(exp, j));
    if EvalTerm(t.left).Ok? {
      TermStep(exp, i + |x|, j, g, op, t.right, EvalTerm(t.left).value);
    }
  }

  /** The left operand, the operator and the right operand of a product printed at `i`. */
  lemma TermLayout(exp: string, i: nat, g: string, t: Term)
    requires t.Times? || t.Over?
    requires Gap(g) && Occurs(exp, i, PrintTerm(t, g))
    ensures var x, y := PrintTerm(t.left, g), PrintFactor(t.right, g);
      && Occurs(exp, i, x) && Boundary(exp, i + |x|)
      && Occurs(exp, i + |x|, g + [if t.Times? then '*' else '/'] + g + y)
      && |PrintTerm(t, g)| == |x| + 2 * |g| + 1 + |y|
  {
    var op := if t.Times? then '*' else '/';
    var x, w := PrintTerm(t.left, g), g + [op] + g + PrintFactor(t.right, g);
    assert PrintTerm(t, g) == x + w;
    OccursSplit(exp, i, x, w);
    OperatorLayout(exp, i + |x|, g, op, PrintFactor(t.right, g));
  }

  /** One turn of the loop of `divideOrMultiply` over the text `g op g r` written from `k` to `j`. */
  lemma TermStep(exp: string, k: nat, j: nat, g: string, op: char, r: Factor, acc: real)
    requires op == '*' || op == '/'
    requires Gap(g) && WfFactor(r) && Occurs(exp, k, g + [op] + g + PrintFactor(r, g))
    requires j == k + 2 * |g| + 1 + |PrintFactor(r, g)|
    requires Boundary(exp, j)
    ensures DivideOrMultiplyLoop(acc, At(exp, k)) == ThenTerm(MulOperand(acc, op, EvalFactor(r)), At(exp, j))
    decreases r, 2
  {
    var m := k + 2 * |g| + 1;
    OperatorLayout(exp, k, g, op, PrintFactor(r, g));
    ParseFactor(exp, m, j, g, r);
    MulStep(acc, At(exp, k), At(exp, j), EvalFactor(r));
  }

  /** `unarySign` on a factor printed from `i` to `j`: the factor's value, and the token after it. */
  lemma {:induction false} ParseFactor(exp: string, i: nat, j: nat, g: string, f: Factor)
    requires Gap(g) && WfFactor(f) && Occurs(exp, i, PrintFactor(f, g)) && j == i + |PrintFactor(f, g)|
    requires Boundary(exp, j)
    ensures UnarySign(At(exp, i)) == Continue(EvalFactor(f), At(exp, j))
    decreases f, 1
  {
    if f.Bare? {
      FirstOfPrimary(f.primary, g);
      assert exp[i + 0] == PrintPrimary(f.primary, g)[0];
      FirstCharacter(exp, i);
      ParsePrimary(exp, i, j, g, f.primary);
    } else {
      ParseSigned(exp, i, j, g, f);
    }
  }

  /** The sign and the operand of a signed factor printed at `i`. */
  lemma SignLayout(exp: string, i: nat, g: string, f: Factor)
    requires f.Positive? || f.Negative?
    requires Gap(g) && Occurs(exp, i, PrintFactor(f, g))
    ensures var x := PrintPrimary(f.primary, g);
      && Occurs(exp, i + 1 + |g|, x)
      && |PrintFactor(f, g)| == 1 + |g| + |x|
      && At(exp, i) == State(exp, i + 1, if f.Negative? then "-" else "+", Delimiter)
      && Advance(At(exp, i)) == At(exp, i + 1 + |g|)
  {
    var op := if f.Positive? then '+' else '-';
    assert PrintFactor(f, g) == [op] + g + PrintPrimary(f.primary, g);
    PrefixLayout(exp, i, op, g, PrintPrimary(f.primary, g));
  }

  /** The Positive and Negative cases of `ParseFactor`. */
  lemma {:induction false} ParseSigned(exp: string, i: nat, j: nat, g: string, f: Factor)
    requires f.Positive? || f.Negative?
    requires Gap(g) && WfFactor(f) && Occurs(exp, i, PrintFactor(f, g)) && j == i + |PrintFactor(f, g)|
    requires Boundary(exp, j)
    ensures UnarySign(At(exp, i)) == Continue(EvalFactor(f), At(exp, j))
    decreases f, 0
  {
    SignLayout(exp, i, g, f);
    ParsePrimary(exp, i + 1 + |g|, j, g, f.primary);
    SignCombines(f);
    SignStep(At(exp, i), At(exp, j), EvalPrimary(f.primary), f.Negative?);
  }

  /** `evalBrackets` on a primary printed from `i` to `j`: its value, and the token after it. */
  lemma {:induction false} ParsePrimary(exp: string, i: nat, j: nat, g: string, p: Primary)
    requires Gap(g) && WfPrimary(p) && Occurs(exp, i, PrintPrimary(p, g)) && j == i + |PrintPrimary(p, g)|
    requires Boundary(exp, j)
    ensures EvalBrackets(At(exp, i)) == Continue(EvalPrimary(p), At(exp, j))
    decreases p, 1
  {
    match p
    case Literal(text) =>
      ParseLiteral(exp, i, text);
    case Parens(_) =>
      ParseParens(exp, i, j, g, p);
  }

  /** `evalBrackets` on a number literal: it is one NUMBER token, converted by `valueOfNumber`. */
  lemma ParseLiteral(exp: string, i: nat, text: string)
    requires TokenShape(text, Number) && Occurs(exp, i, text)
    requires Boundary(exp, i + |text|)
    ensures EvalBrackets(At(exp, i)) == Continue(EvalPrimary(Literal(text)), At(exp, i + |text|))
  {
    assert exp[i + |text| - 1] == text[|text| - 1];
    NumberToken(exp, i, text);
  }

  /** `evalBrackets` on a bracketed sum: the sum's value, with the closing bracket consumed. */
  lemma {:induction false} ParseParens(exp: string, i: nat, j: nat, g: string, p: Primary)
    requires p.Parens?
    requires Gap(g) && WfPrimary(p) && Occurs(exp, i, PrintPrimary(p, g)) && j == i + |PrintPrimary(p, g)|
    requires Boundary(exp, j)
    ensures EvalBrackets(At(exp, i)) == Continue(EvalPrimary(p), At(exp, j))
    decreases p, 0
  {
    var x := PrintSum(p.sum, g);
    var js := i + 1 + |g| + |x|;
    assert PrintPrimary(p, g) == "(" + g + x + g + ")";
    ParensLayout(exp, i, g, x);
    ParseSum(exp, i + 1 + |g|, js, g, p.sum);
    SumStops(EvalSum(p.sum), At(exp, js));
    BracketStep(At(exp, i), At(exp, js), EvalSum(p.sum));
    assert Advance(At(exp, js)) == At(exp, j);
    assert EvalPrimary(p) == EvalSum(p.sum);
  }

  // ----- Whole statements -------------------------------------------------

  /** The token read at the end of the expression is the end of expression. */
  lemma EndIsEnd(exp: string)
    ensures At(exp, |exp|).token == EOE
  {
    assert Scanner(exp, |exp|, Skipping) == Scanner(exp, |exp|, Reading);
  }

  /** A statement that begins, after whitespace, with a printed sum does not fail for want of an expression. */
  lemma StartsSum(statement: string, lead: string, g: string, e: Sum)
    requires Gap(lead) && WfSum(e) && Occurs(statement, 0, lead + PrintSum(e, g))
    ensures Occurs(statement, |lead|, PrintSum(e, g))
    ensures Start(statement) == At(statement, |lead|) && Start(statement).token != EOE
  {
    var p := |lead|;
    OccursSplit(statement, 0, lead, PrintSum(e, g));
    assert Occurs(statement, 0 + p, PrintSum(e, g));
    GapAt(statement, 0, lead);
    FirstOfSum(e, g);
    assert statement[p + 0] == PrintSum(e, g)[0];
    FirstCharacter(statement, p);
  }

  /**
   * `calculate` on a statement that holds, after whitespace, a printed sum:
   * the tree's failure if it has one, else its value when the token after
   * the sum is the end of expression, and a trailing-token failure when it
   * is any other token that does not continue the sum.
   */
  lemma {:induction false} CalculatesSum(statement: string, lead: string, g: string, e: Sum)
    requires Gap(lead) && Gap(g) && WfSum(e) && Occurs(statement, 0, lead + PrintSum(e, g))
    requires Boundary(statement, |lead| + |PrintSum(e, g)|)
    requires EndsSum(At(statement, |lead| + |PrintSum(e, g)|))
    ensures Calculate(statement) ==
      if EvalSum(e).Err? then EvalSum(e)
      else if At(statement, |lead| + |PrintSum(e, g)|).token == EOE then EvalSum(e)
      else Err(TrailingToken)
  {
    var j := |lead| + |PrintSum(e, g)|;
    StartsSum(statement, lead, g, e);
    ParseSum(statement, |lead|, j, g, e);
    SumStops(EvalSum(e), At(statement, j));
  }

  /** `EvaluatesPrinted`, on a statement known only by what it holds where. */
  lemma EvaluatesAt(statement: string, lead: string, g: string, e: Sum, trail: string)
    requires Gap(lead) && Gap(g) && Gap(trail) && WfSum(e)
    requires Occurs(statement, 0, lead + PrintSum(e, g))
    requires Occurs(statement, |lead| + |PrintSum(e, g)|, trail)
    requires |statement| == |lead| + |PrintSum(e, g)| + |trail|
    ensures Calculate(statement) == EvalSum(e)
  {
    var j := |lead| + |PrintSum(e, g)|;
    if |trail| > 0 {
      assert statement[j + 0] == trail[0];
    }
    GapAt(statement, j, trail);
    EndIsEnd(statement);
    EndEndsSum(At(statement, j));
    assert Boundary(statement, j);
    CalculatesSum(statement, lead, g, e);
  }

  /**
   * The main theorem: a printed sum, with one and the same run of spaces `g`
   * between every two of its tokens and any spaces before and after it, is
   * computed by `calculate` exactly as the tree evaluator computes it, and
   * `evaluate` returns `null` exactly where the tree evaluator fails.
   */
  lemma EvaluatesPrinted(lead: string, g: string, e: Sum, trail: string)
    requires Gap(lead) && Gap(g) && Gap(trail) && WfSum(e)
    ensures Calculate(lead + PrintSum(e, g) + trail) == EvalSum(e)
    ensures Evaluate(lead + PrintSum(e, g) + trail).None? <==> EvalSum(e).Err?
  {
    var statement := lead + PrintSum(e, g) + trail;
    OccursSplit(statement, 0, lead + PrintSum(e, g), trail);
    EvaluatesAt(statement, lead, g, e, trail);
  }

  /** The token that follows a printed sum and a gap at `j`. */
  lemma TailLayout(statement: string, j: nat, g: string, c: char)
    requires Gap(g) && !IsWhitespace(c) && Occurs(statement, j, g + [c])
    ensures j + |g| < |statement| && statement[j + |g|] == c
    ensures At(statement, j) == At(statement, j + |g|)
    ensures |g| > 0 ==> IsDelim(statement[j])
    ensures |g| == 0 ==> statement[j] == c
  {
    OccursSplit(statement, j, g, [c]);
    assert statement[j + |g| + 0] == [c][0];
    GapAt(statement, j, g);
    if |g| > 0 {
      assert statement[j + 0] == g[0];
    }
  }

  /** `TrailingDelimiterIsRejected`, on a statement known only by what it holds where. */
  lemma TrailingDelimiterAt(statement: string, lead: string, g: string, e: Sum, c: char)
    requires Gap(lead) && Gap(g) && WfSum(e) && (c == ')' || c == '=' || c == '(')
    requires Occurs(statement, 0, lead + PrintSum(e, g))
    requires Occurs(statement, |lead| + |PrintSum(e, g)|, g + [c])
    ensures Calculate(statement) == if EvalSum(e).Err? then EvalSum(e) else Err(TrailingToken)
  {
    var j := |lead| + |PrintSum(e, g)|;
    TailLayout(statement, j, g, c);
    DelimiterToken(statement, j + |g|);
    CalculatesSum(statement, lead, g, e);
  }

  /**
   * A printed sum followed by a `)`, a `=` or a `(` is rejected, even when
   * its value is defined: that token is left over after `addOrSubtract`.
   */
  lemma TrailingDelimiterIsRejected(lead: string, g: string, e: Sum, c: char, rest: string)
    requires Gap(lead) && Gap(g) && WfSum(e) && (c == ')' || c == '=' || c == '(')
    ensures Calculate(lead + PrintSum(e, g) + (g + [c] + rest)) ==
      if EvalSum(e).Err? then EvalSum(e) else Err(TrailingToken)
  {
    var statement := lead + PrintSum(e, g) + (g + [c] + rest);
    OccursSplit(statement, 0, lead + PrintSum(e, g), g + [c] + rest);
    OccursSplit(statement, |lead + PrintSum(e, g)|, g + [c], rest);
    TrailingDelimiterAt(statement, lead, g, e, c);
  }

  /** The text ends with a closing bracket. */
  predicate ClosesBracket(w: string) {
    |w| > 0 && w[|w| - 1] == ')'
  }

  /** `UnrecognisedTailIsIgnored`, on a statement known only by what it holds where. */
  lemma UnrecognisedAt(statement: string, lead: string, g: string, e: Sum, c: char)
    requires Gap(lead) && Gap(g) && WfSum(e) && Unrecognised(c)
    requires |g| > 0 || ClosesBracket(PrintSum(e, g))
    requires Occurs(statement, 0, lead + PrintSum(e, g))
    requires Occurs(statement, |lead| + |PrintSum(e, g)|, g + [c])
    ensures Calculate(statement) == EvalSum(e)
  {
    var j := |lead| + |PrintSum(e, g)|;
    TailLayout(statement, j, g, c);
    FirstOfSum(e, g);
    if |g| == 0 {
      assert statement[j - 1] == (lead + PrintSum(e, g))[j - 1];
    }
    FirstCharacter(statement, j + |g|);
    CalculatesSum(statement, lead, g, e);
  }

  /**
   * A printed sum followed by an unrecognised character is computed as if
   * the statement ended there, whatever comes after: for example "(1)a" is 1.
   * The sum must be set off from that character by a gap or end with a
   * bracket, or the character would continue its last number.
   */
  lemma UnrecognisedTailIsIgnored(lead: string, g: string, e: Sum, c: char, rest: string)
    requires Gap(lead) && Gap(g) && WfSum(e) && Unrecognised(c)
    requires |g| > 0 || ClosesBracket(PrintSum(e, g))
    ensures Calculate(lead + PrintSum(e, g) + (g + [c] + rest)) == EvalSum(e)
  {
    var statement := lead + PrintSum(e, g) + (g + [c] + rest);
    OccursSplit(statement, 0, lead + PrintSum(e, g), g + [c] + rest);
    OccursSplit(statement, |lead + PrintSum(e, g)|, g + [c], rest);
    UnrecognisedAt(statement, lead, g, e, c);
  }

  /** `TwoSignsAreRejected`, on a statement known only by what it holds where. */
  lemma TwoSignsAt(statement: string, lead: string, op1: char, g: string, op2: char)
    requires Gap(lead) && Gap(g) && (op1 == '+' || op1 == '-') && (op2 == '+' || op2 == '-')
    requires Occurs(statement, 0, lead) && Occurs(statement, |lead|, [op1] + g + [op2])
    ensures Calculate(statement) == Err(NotANumber)
  {
    var p := |lead|;
    var q := p + 1 + |g|;
    GapAt(statement, 0, lead);
    PrefixLayout(statement, p, op1, g, [op2]);
    assert statement[q + 0] == [op2][0];
    DelimiterToken(statement, q);
    NumberWanted(At(statement, q));
    SignStep(At(statement, p), At(statement, p), Err(NotANumber), op1 == '-');
    StartFails(statement);
  }

  /**
   * At most one sign is taken in front of the first operand: a statement
   * that starts with two signs, as in "--5", wants a number at the second
   * sign and is rejected. (Inside a sum the first sign is the operator, so
   * "1--5" is 6; `Evaluator.SecondSignFails` covers every operand.)
   */
  lemma TwoSignsAreRejected(lead: string, op1: char, g: string, op2: char, rest: string)
    requires Gap(lead) && Gap(g) && (op1 == '+' || op1 == '-') && (op2 == '+' || op2 == '-')
    ensures Calculate(lead + ([op1] + g + [op2]) + rest) == Err(NotANumber)
  {
    var statement := lead + ([op1] + g + [op2]) + rest;
    OccursSplit(statement, 0, lead + ([op1] + g + [op2]), rest);
    OccursSplit(statement, 0, lead, [op1] + g + [op2]);
    TwoSignsAt(statement, lead, op1, g, op2);
  }

  /** `UnclosedBracketIsRejected`, on a statement known only by what it holds where. */
  lemma UnclosedAt(statement: string, lead: string, g: string, e: Sum, trail: string)
    requires Gap(lead) && Gap(g) && Gap(trail) && WfSum(e)
    requires Occurs(statement, 0, lead) && Occurs(statement, |lead|, "(" + g + PrintSum(e, g))
    requires Occurs(statement, |lead| + 1 + |g| + |PrintSum(e, g)|, trail)
    requires |statement| == |lead| + 1 + |g| + |PrintSum(e, g)| + |trail|
    ensures Calculate(statement) == if EvalSum(e).Err? then EvalSum(e) else Err(UnclosedBracket)
  {
    var p := |lead|;
    var j := p + 1 + |g| + |PrintSum(e, g)|;
    GapAt(statement, 0, lead);
    if |trail| > 0 {
      assert statement[j + 0] == trail[0];
    }
    GapAt(statement, j, trail);
    EndIsEnd(statement);
    UnclosedParens(statement, p, j, g, e);
    StartFails(statement);
  }

  /** An opening bracket and a sum, with the end of expression after them, fail for want of `)`. */
  lemma UnclosedParens(exp: string, p: nat, j: nat, g: string, e: Sum)
    requires Gap(g) && WfSum(e) && Occurs(exp, p, "(" + g + PrintSum(e, g))
    requires j == p + 1 + |g| + |PrintSum(e, g)|
    requires Boundary(exp, j) && At(exp, j).token == EOE
    ensures At(exp, p).token == "("
    ensures UnarySign(At(exp, p)) == if EvalSum(e).Err? then Err(EvalSum(e).failure) else Err(UnclosedBracket)
  {
    PrefixLayout(exp, p, '(', g, PrintSum(e, g));
    ParseSum(exp, p + 1 + |g|, j, g, e);
    SumStops(EvalSum(e), At(exp, j));
    BracketStep(At(exp, p), At(exp, j), EvalSum(e));
    OpenIsNoSign(At(exp, p));
  }

  /** A `(` whose sum runs to the end of the statement without a `)` is rejected. */
  lemma UnclosedBracketIsRejected(lead: string, g: string, e: Sum, trail: string)
    requires Gap(lead) && Gap(g) && Gap(trail) && WfSum(e)
    ensures Calculate(lead + ("(" + g + PrintSum(e, g)) + trail) ==
      if EvalSum(e).Err? then EvalSum(e) else Err(UnclosedBracket)
  {
    var statement := lead + ("(" + g + PrintSum(e, g)) + trail;
    OccursSplit(statement, 0, lead + ("(" + g + PrintSum(e, g)), trail);
    OccursSplit(statement, 0, lead, "(" + g + PrintSum(e, g));
    UnclosedAt(statement, lead, g, e, trail);
  }

  /** `OperandMissingIsRejected`, on a statement known only by what it holds where. */
  lemma OperandMissingAt(statement: string, lead: string, g: string, e: Sum, op: char, c: char)
    requires Gap(lead) && Gap(g) && WfSum(e) && (op == '+' || op == '-') && Unrecognised(c)
    requires Occurs(statement, 0, lead + PrintSum(e, g))
    requires Occurs(statement, |lead| + |PrintSum(e, g)|, g + [op] + g + [c])
    ensures Calculate(statement) == if EvalSum(e).Err? then EvalSum(e) else Err(NotANumber)
  {
    var j := |lead| + |PrintSum(e, g)|;
    var k := j + 2 * |g| + 1;
    OperatorLayout(statement, j, g, op, [c]);
    assert statement[k + 0] == [c][0];
    FirstCharacter(statement, k);
    OperandWanted(At(statement, k));
    AddStep(0.0, At(statement, j), At(statement, k), Err(NotANumber));
    StartsSum(statement, lead, g, e);
    ParseSum(statement, |lead|, j, g, e);
  }

  /**
   * An unrecognised character where the operand after `+` or `-` is wanted
   * is the end of expression, which is not a number: "1+a" is rejected.
   */
  lemma OperandMissingIsRejected(lead: string, g: string, e: Sum, op: char, c: char, rest: string)
    requires Gap(lead) && Gap(g) && WfSum(e) && (op == '+' || op == '-') && Unrecognised(c)
    ensures Calculate(lead + PrintSum(e, g) + (g + [op] + g + [c] + rest)) ==
      if EvalSum(e).Err? then EvalSum(e) else Err(NotANumber)
  {
    var statement := lead + PrintSum(e, g) + (g + [op] + g + [c] + rest);
    OccursSplit(statement, 0, lead + PrintSum(e, g), g + [op] + g + [c] + rest);
    OccursSplit(statement, |lead + PrintSum(e, g)|, g + [op] + g + [c], rest);
    OperandMissingAt(statement, lead, g, e, op, c);
  }
}
