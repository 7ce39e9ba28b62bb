/**
 * The lexer of CalculatorImpl: the character classes it uses and a pure
 * description of one call of `getToken`, which reads the expression from the
 * current index and yields the next token, its type and the new index.
 */
module Lexer {

  /** The token types NONE, DELIMETER and NUMBER. */
  datatype TokenType = Untyped | Delimiter | Number

  /** The text of the end-of-expression token, a single NUL character. */
  const EOE: string := "\0"

  /** The string whose characters `isDelim` looks the character up in. */
  const Delimiters: string := " +-/*=()"

  /** `isDelim`: the character is a space, an operator sign, '=' or a parenthesis. */
  predicate IsDelim(c: char) {
    c == ' ' || c == '+' || c == '-' || c == '/' || c == '*' || c == '=' || c == '(' || c == ')'
  }

  /** The delimiters are exactly the eight characters of `Delimiters`. */
  lemma DelimiterLookup(c: char)
    ensures IsDelim(c) <==> c in Delimiters
  {
  }

  /** `Character.isWhitespace`, restricted to the ASCII range. */
  predicate IsWhitespace(c: char) {
    c == ' ' || 9 <= c as int <= 13 || 28 <= c as int <= 31
  }

  /** `Character.isDigit`, restricted to the ASCII digits. */
  predicate IsDigit(c: char) {
    '0' <= c <= '9'
  }

  /** A character that can start no token: it makes `getToken` yield the end of expression. */
  predicate Unrecognised(c: char) {
    !IsWhitespace(c) && !IsDelim(c) && !IsDigit(c)
  }

  /**
   * What every token looks like: a NONE token is the end of expression, a
   * DELIMETER token is one delimiter character, a NUMBER token starts with a
   * digit and holds no delimiter. In particular a token is never empty.
   */
  predicate TokenShape(token: string, kind: TokenType) {
    match kind
    case Untyped => token == EOE
    case Delimiter => |token| == 1 && IsDelim(token[0]) && token[0] != ' '
    case Number =>
      |token| > 0 && IsDigit(token[0]) && forall k | 0 <= k < |token| :: !IsDelim(token[k])
  }

  /** The token, its type and the index `getToken` leaves behind. */
  datatype Scan = Scan(token: string, kind: TokenType, next: nat)

  /**
   * The number loop: it takes the character at `i` and then every following
   * one up to the first delimiter or the end of the expression.
   */
  function NumberEnd(exp: string, i: nat): (j: nat)
    requires i < |exp| && !IsDelim(exp[i])
    ensures i < j <= |exp|
    ensures forall k | i <= k < j :: !IsDelim(exp[k])
    ensures j == |exp| || IsDelim(exp[j])
    decreases |exp| - i
  {
    if i + 1 >= |exp| || IsDelim(exp[i + 1]) then i + 1 else NumberEnd(exp, i + 1)
  }

  /** The two phases of `getToken`: the whitespace loop, then reading the token. */
  datatype Phase = Skipping | Reading

  /**
   * `getToken` from index `i` in the given phase. While skipping, whitespace
   * is passed over; once it stops, the character reached decides the token:
   * none left is the end of expression, a delimiter is a one-character
   * DELIMETER token, a digit starts a NUMBER token that runs up to the next
   * delimiter, and any other character is the end of expression without
   * being consumed.
   */
  function Scanner(exp: string, i: nat, phase: Phase): (r: Scan)
    requires i <= |exp|
    requires phase == Reading ==> i == |exp| || !IsWhitespace(exp[i])
    ensures i <= r.next <= |exp|
    ensures TokenShape(r.token, r.kind)
    ensures r.kind != Untyped ==> i < r.next
    decreases |exp| - i, if phase == Skipping then 1 else 0
  {
    match phase
    case Skipping =>
      if i < |exp| && IsWhitespace(exp[i]) then Scanner(exp, i + 1, Skipping)
      else Scanner(exp, i, Reading)
    case Reading =>
      if i == |exp| then Scan(EOE, Untyped, i)
      else if IsDelim(exp[i]) then Scan([exp[i]], Delimiter, i + 1)
      else if IsDigit(exp[i]) then
        var e := NumberEnd(exp, i);
        Scan(exp[i..e], Number, e)
      else Scan(EOE, Untyped, i)
  }

  /** One call of `getToken` with the expression `exp` and the index `i`. */
  function NextToken(exp: string, i: nat): (r: Scan)
    requires i <= |exp|
    ensures i <= r.next <= |exp|
    ensures TokenShape(r.token, r.kind)
    ensures r.kind != Untyped ==> i < r.next
  {
    Scanner(exp, i, Skipping)
  }

  /**
   * What one call of `getToken` yields, pinned down completely: a DELIMETER
   * or NUMBER token is the text just consumed, after nothing but whitespace;
   * a NUMBER token is maximal; and the end of expression is yielded exactly at
   * the end of the input or at an unrecognised character, which is not
   * consumed.
   */
  lemma {:induction false} NextTokenSpec(exp: string, i: nat)
    requires i <= |exp|
    ensures var r := NextToken(exp, i);
      r.kind != Untyped ==>
        |r.token| <= r.next - i && r.token == exp[r.next - |r.token|..r.next] &&
        forall k | i <= k < r.next - |r.token| :: IsWhitespace(exp[k])
    ensures var r := NextToken(exp, i);
      r.kind == Number ==> r.next == |exp| || IsDelim(exp[r.next])
    ensures var r := NextToken(exp, i);
      r.kind == Untyped ==>
        (forall k | i <= k < r.next :: IsWhitespace(exp[k])) &&
        (r.next == |exp| || Unrecognised(exp[r.next]))
    decreases |exp| - i
  {
    if i < |exp| && IsWhitespace(exp[i]) {
      assert NextToken(exp, i) == NextToken(exp, i + 1);
      NextTokenSpec(exp, i + 1);
    } else {
      assert NextToken(exp, i) == Scanner(exp, i, Reading);
    }
  }

  /** The number loop stops at the first delimiter or at the end, whichever comes first. */
  lemma {:induction false} NumberEndAt(exp: string, p: nat, q: nat)
    requires p < q <= |exp|
    requires forall k | p <= k < q :: !IsDelim(exp[k])
    requires q == |exp| || IsDelim(exp[q])
    ensures NumberEnd(exp, p) == q
    decreases q - p
  {
    if p + 1 < q {
      NumberEndAt(exp, p + 1, q);
    }
  }

  /** Whitespace in front of a token does not change the token or where it ends. */
  lemma {:induction false} SpaceIsSkipped(exp: string, p: nat, q: nat)
    requires p <= q <= |exp|
    requires forall k | p <= k < q :: IsWhitespace(exp[k])
    ensures NextToken(exp, p) == NextToken(exp, q)
    decreases q - p
  {
    if p < q {
      SpaceIsSkipped(exp, p + 1, q);
    }
  }

  /** A delimiter other than the space is a one-character DELIMETER token. */
  lemma DelimiterToken(exp: string, p: nat)
    requires p < |exp| && IsDelim(exp[p]) && exp[p] != ' '
    ensures NextToken(exp, p) == Scan([exp[p]], Delimiter, p + 1)
  {
    assert Scanner(exp, p, Skipping) == Scanner(exp, p, Reading);
  }

  /** A number literal that runs up to a delimiter or the end is read as one NUMBER token. */
  lemma NumberToken(exp: string, p: nat, lit: string)
    requires TokenShape(lit, Number)
    requires p + |lit| <= |exp| && forall k | 0 <= k < |lit| :: exp[p + k] == lit[k]
    requires p + |lit| == |exp| || IsDelim(exp[p + |lit|])
    ensures NextToken(exp, p) == Scan(lit, Number, p + |lit|)
  {
    assert exp[p + 0] == lit[0];
    assert Scanner(exp, p, Skipping) == Scanner(exp, p, Reading);
    forall k | p <= k < p + |lit| ensures !IsDelim(exp[k]) {
      assert exp[p + (k - p)] == lit[k - p];
    }
    NumberEndAt(exp, p, p + |lit|);
    assert exp[p..p + |lit|] == lit;
  }

  /** A digit starts a NUMBER token that runs up to the next delimiter or the end. */
  lemma NumberRead(exp: string, p: nat)
    requires p < |exp| && IsDigit(exp[p])
    ensures NextToken(exp, p) == Scan(exp[p..NumberEnd(exp, p)], Number, NumberEnd(exp, p))
  {
    assert Scanner(exp, p, Skipping) == Scanner(exp, p, Reading);
  }

  /** The first character of a token, when it is not whitespace, decides its type. */
  lemma FirstCharacter(exp: string, p: nat)
    requires p < |exp| && !IsWhitespace(exp[p])
    ensures IsDelim(exp[p]) ==> NextToken(exp, p) == Scan([exp[p]], Delimiter, p + 1)
    ensures IsDigit(exp[p]) ==>
      NextToken(exp, p).kind == Number && NextToken(exp, p).token[0] == exp[p]
    ensures Unrecognised(exp[p]) ==> NextToken(exp, p) == Scan(EOE, Untyped, p)
  {
    assert Scanner(exp, p, Skipping) == Scanner(exp, p, Reading);
  }
}
