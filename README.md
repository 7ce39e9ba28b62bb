# CalculatorImpl in Dafny

A model of `CalculatorImpl`, a single-pass calculator for arithmetic expressions. It has two parts:

- **A lexer.** `getToken` reads the next token of the field `exp` from the index `expIndex` into the fields `token` and `tokenType`. `isDelim` decides which characters end a number.
- **A recursive-descent evaluator.** It parses and computes in one pass: `calculate` → `addOrSubtract` → `divideOrMultiply` → `unarySign` → `evalBrackets` → `valueOfNumber`, and `evalBrackets` calls back into `addOrSubtract` for a bracketed sub-expression.

`evaluate` returns `null` wherever `calculate` throws.

## Files

The project is layered from the Java class upwards.

- `outcomes.dfy`: `Option` (with `None` for the Java `null`), `Result`, and `Failure`, which names the place that throws.
- `lexer.dfy`: the character classes, the token types and the end-of-expression token `"\0"`. `NextToken` is a pure function describing one call of `getToken`. The lemmas pin that call down completely.
- `number_literal.dfy`: `Double.parseDouble`, restricted to the decimal literals a NUMBER token can hold and computed exactly.
- `evaluator.dfy`: one function per Java procedure.
  - Each maps the state the four fields start in to the value it computes and the state it leaves, or to the failure it throws.
  - The `while` loops of `addOrSubtract` and `divideOrMultiply` are the functions `AddOrSubtractLoop` and `DivideOrMultiplyLoop`.
  - Termination follows from `Rem`, the input not yet consumed.
- `grammar.dfy`: the grammar the procedures recognise, as syntax trees, with a printer and an ordinary tree evaluator.
  - The main theorem, `EvaluatesPrinted`, says that on the printed text of any tree, with one and the same run of spaces between every two tokens and any spaces before and after, `calculate` computes exactly what the tree evaluator computes.
  - Further lemmas cover the inputs that are rejected: a stray token after the expression, two signs where an operand starts, an unclosed bracket, and a letter where an operand is wanted. One covers an input that is accepted: a letter set off from a complete expression by a space or a `)` ends it.
- `scenarios.dfy`: the consequences for fixed shapes of statement over any literals, such as precedence, left-to-right grouping, the sign, brackets and the double division. It also covers a few concrete statements, among them the example in the documentation of `evaluate`, `(1 + 38) * 4.5 - 1 / 2.`, which is 175.25.
- `calculator.dfy`: the class `CalculatorImpl` with the four Java fields. Its methods are imperative, as the Java procedures are:
  - they update the fields;
  - `getToken` appends characters to `token` in a loop;
  - `addOrSubtract` and `divideOrMultiply` loop over a local result.

  Each method is proved to compute what the matching `Evaluator` function computes, and to leave the state that function describes.

## Behaviour reproduced as written

- `/` divides the accumulated result by its right operand twice (`CalculatorImpl.java:122-123`). So `"8/2"` is 2 (`Scenarios.EightOverTwo`). A zero right operand fails.
  - This departs from ordinary arithmetic, where `"8/2"` is 4. The model keeps the code's behaviour.
  - The double division is the function `Evaluator.Quotient`; `Evaluator.QuotientIsOverSquare` shows it divides by the square of the operand, and the scenarios state it.
- The delimiters are the space, `+ - / * = ( )` (`CalculatorImpl.java:211`).
  - The program's own comment on `DELIMETER` (`CalculatorImpl.java:16`) lists only `/ * - + ( )`. The code also treats the space and `=` as delimiters, and the model follows the code (`Lexer.DelimiterLookup`).
  - A `=` is a DELIMETER token that no rule uses. A `=` that the parser reaches is never consumed, so the statement is rejected. After a complete sum it is a left-over token (`Scenarios.StrayEquals`). Where an operand is wanted it is not a number (`"=1"`, `Scenarios.EqualsAsOperand`). Inside brackets, as in `"(1=)"`, no `)` follows the sum. A `=` after an unrecognised character is never read: `"(1)a="` is 1 (`Scenarios.TrailingLetter`).
  - Since a space is a delimiter, a number ends at a space.
- A character that is neither whitespace, a delimiter nor a digit yields the end of expression, without being consumed (`CalculatorImpl.java:201-203`).
  - Where an operand is wanted, the statement fails (`"1+a"`, `"a"`).
  - When a space or a `)` separates it from a complete expression, the statement is accepted as if it ended there (`"(1)a"` is 1).
  - Right after a digit, a letter continues the number token (`CalculatorImpl.java:195-199`). The conversion refuses it unless the letters spell an exponent (`e` or `E` and digits) or a final `f`/`F`/`d`/`D` suffix. So `"1a"` fails (`Scenarios.LetterJoinsNumber`), `"1f"` is 1 (`Scenarios.SuffixLiteral`) and `"2e1"` is 20 (`Scenarios.ExponentLiteral`).
- At most one sign is taken in front of an operand: wherever an operand starts with two signs, the statement fails, so `"--5"` fails (`Evaluator.SecondSignFails`). Inside a sum the first sign is the operator, so `"1--5"` is 1 - (-5) = 6 (`Scenarios.OneMinusMinusFive`). The sign guard reads `tokenType == DELIMETER && token == "+" || token == "-"`; on the states `getToken` produces, this is the same as requiring a DELIMETER token in both cases (`Evaluator.SignGuardAsIntended`).
- The Java code throws `IllegalArgumentException` at every failure; `NumberFormatException` is a subclass of it. The model tells the throw sites apart (`Outcomes.Failure`), and `evaluate` maps all of them to `None`.

## Model

| member | source | states |
|---|---|---|
| Lexer.DelimiterLookup | src/com/makarov_denis_vertigo633/CalculatorImpl.java:210-214 | `isDelim` holds exactly for the eight characters of the delimiter string: the space, `+ - / * =` and both brackets |
| Lexer.NextToken | src/com/makarov_denis_vertigo633/CalculatorImpl.java:177-205 | One call of `getToken` from index `i`: the new index lies between `i` and the end of the expression; the token has the shape of its type (end of expression; one delimiter other than the space; or a digit followed by non-delimiters, so never empty); a DELIMETER or NUMBER token moves the index strictly forward |
| Lexer.NextTokenSpec | src/com/makarov_denis_vertigo633/CalculatorImpl.java:177-205 | The token read is exactly the text consumed after nothing but whitespace; a NUMBER token is maximal (a delimiter or the end follows it); the end of expression is yielded exactly at the end of the input or at an unrecognised character, which is not consumed |
| Lexer.NumberEnd | src/com/makarov_denis_vertigo633/CalculatorImpl.java:195-199 | The number loop takes at least one character, only non-delimiters, and stops at a delimiter or at the end |
| Lexer.NumberEndAt | src/com/makarov_denis_vertigo633/CalculatorImpl.java:195-199 | The number loop stops at the first delimiter after its start, or at the end if there is none |
| Lexer.SpaceIsSkipped | src/com/makarov_denis_vertigo633/CalculatorImpl.java:184-185 | Whitespace in front of a token changes neither the token nor where it ends |
| Lexer.DelimiterToken | src/com/makarov_denis_vertigo633/CalculatorImpl.java:190-193 | A delimiter other than the space is read as a one-character DELIMETER token and consumed |
| Lexer.NumberToken | src/com/makarov_denis_vertigo633/CalculatorImpl.java:194-200 | A number literal followed by a delimiter or the end is read whole as one NUMBER token |
| Lexer.NumberRead | src/com/makarov_denis_vertigo633/CalculatorImpl.java:194-200 | A digit starts a NUMBER token that runs up to the next delimiter or the end |
| Lexer.FirstCharacter | src/com/makarov_denis_vertigo633/CalculatorImpl.java:190-204 | The first character after the whitespace decides the token: a delimiter gives a DELIMETER token, a digit a NUMBER token starting with it, an unrecognised character the end of expression at that same index |
| NumberLiteral.ParseDouble | src/com/makarov_denis_vertigo633/CalculatorImpl.java:168 | A converted number token is never negative, since it has no sign |
| NumberLiteral.TrimStart | src/com/makarov_denis_vertigo633/CalculatorImpl.java:168 | `String.trim` at the front removes exactly the leading characters up to U+0020 |
| NumberLiteral.TrimEnd | src/com/makarov_denis_vertigo633/CalculatorImpl.java:168 | `String.trim` at the back removes exactly the trailing characters up to U+0020 |
| NumberLiteral.ParseDoubleTrims | src/com/makarov_denis_vertigo633/CalculatorImpl.java:168 | The conversion trims both ends and converts the rest; it accepts only text whose trimmed form starts with a digit |
| NumberLiteral.ParsesDigits | src/com/makarov_denis_vertigo633/CalculatorImpl.java:168 | A string of digits converts to its decimal value |
| NumberLiteral.ParsesDecimal | src/com/makarov_denis_vertigo633/CalculatorImpl.java:168 | `d1.d2` converts to the digits of `d1` and `d2` together, divided by ten to the length of `d2` |
| NumberLiteral.ParsesSuffixed | src/com/makarov_denis_vertigo633/CalculatorImpl.java:168 | Digits followed by a type suffix `f`, `F`, `d` or `D` convert to the value of the digits |
| NumberLiteral.ParsesExponent | src/com/makarov_denis_vertigo633/CalculatorImpl.java:168 | `d` `e` `x` converts to the digits of `d` times ten to the value of the digits of `x` |
| NumberLiteral.RejectsSecondPoint | src/com/makarov_denis_vertigo633/CalculatorImpl.java:168 | A literal with a second decimal point is refused |
| Evaluator.Advance | src/com/makarov_denis_vertigo633/CalculatorImpl.java:177-205 | `getToken` on a state keeps it valid, never moves the index back, never increases the input left, and strictly decreases it when the token it replaces was a DELIMETER or NUMBER token |
| Evaluator.AddOrSubtract | src/com/makarov_denis_vertigo633/CalculatorImpl.java:88-103 | A successful `addOrSubtract` leaves a valid state of the same expression, further on, with strictly less input left |
| Evaluator.AddOrSubtractLoop | src/com/makarov_denis_vertigo633/CalculatorImpl.java:93-101 | The loop of `addOrSubtract` leaves a valid state of the same expression and never moves back |
| Evaluator.DivideOrMultiply | src/com/makarov_denis_vertigo633/CalculatorImpl.java:108-127 | A successful `divideOrMultiply` leaves a valid state of the same expression, further on, with strictly less input left |
| Evaluator.DivideOrMultiplyLoop | src/com/makarov_denis_vertigo633/CalculatorImpl.java:113-125 | The loop of `divideOrMultiply` leaves a valid state of the same expression and never moves back |
| Evaluator.UnarySign | src/com/makarov_denis_vertigo633/CalculatorImpl.java:132-143 | A successful `unarySign` consumes input and leaves a valid state |
| Evaluator.Signed | src/com/makarov_denis_vertigo633/CalculatorImpl.java:141 | Applying the sign keeps a failure a failure and keeps the state that `evalBrackets` left |
| Evaluator.EvalBrackets | src/com/makarov_denis_vertigo633/CalculatorImpl.java:148-160 | A successful `evalBrackets` consumes input and leaves a valid state |
| Evaluator.ValueOfNumber | src/com/makarov_denis_vertigo633/CalculatorImpl.java:165-172 | It succeeds exactly on a NUMBER token that converts; its value is the converted token, and the state after it is the next token; any other token type fails as not a number |
| Evaluator.Evaluate | src/com/makarov_denis_vertigo633/CalculatorImpl.java:38-47 | `evaluate` gives no result exactly where `calculate` fails, and otherwise the value `calculate` computes |
| Evaluator.Calculate | src/com/makarov_denis_vertigo633/CalculatorImpl.java:65-80 | Has no `ensures` of its own: it is the specification of `calculate`, described by `Grammar.CalculatesSum`, `Grammar.EvaluatesPrinted`, `Evaluator.StartFails` and the rejection lemmas; `Calculator.CalculatorImpl.Calculate` is proved equal to it |
| Evaluator.Quotient | src/com/makarov_denis_vertigo633/CalculatorImpl.java:122-123 | Has no `ensures` of its own: it is the double division, described by `Evaluator.QuotientIsOverSquare` |
| Evaluator.QuotientIsOverSquare | src/com/makarov_denis_vertigo633/CalculatorImpl.java:122-123 | Dividing twice by the operand, multiplied by the square of the operand, gives back the dividend: the result is the dividend over the square |
| Evaluator.AddOperand | src/com/makarov_denis_vertigo633/CalculatorImpl.java:95-100 | One `+` or `-` step fails exactly when its right operand fails, with that failure |
| Evaluator.MulOperand | src/com/makarov_denis_vertigo633/CalculatorImpl.java:115-124 | One `*` or `/` step passes on its operand's failure; it fails otherwise only for `/` with a zero right operand, as a division by zero |
| Evaluator.SignApplied | src/com/makarov_denis_vertigo633/CalculatorImpl.java:141 | A sign keeps a failure and changes nothing else about whether the operand succeeds |
| Evaluator.AddStep | src/com/makarov_denis_vertigo633/CalculatorImpl.java:93-101 | One turn of the loop of `addOrSubtract`: the sign is consumed, the product after it is combined with the result so far, and the loop goes on from the state after that product |
| Evaluator.MulStep | src/com/makarov_denis_vertigo633/CalculatorImpl.java:113-125 | One turn of the loop of `divideOrMultiply`, in the same sense |
| Evaluator.SignStep | src/com/makarov_denis_vertigo633/CalculatorImpl.java:136-142 | `unarySign` on a sign consumes it and negates what follows after `-` only |
| Evaluator.BracketStep | src/com/makarov_denis_vertigo633/CalculatorImpl.java:150-157 | `evalBrackets` on `(`: the inner sum's failure, or its value with the `)` consumed, or a failure when no `)` follows |
| Evaluator.NumberWanted | src/com/makarov_denis_vertigo633/CalculatorImpl.java:158 | A DELIMETER token other than `(` where a primary is wanted fails as not a number |
| Evaluator.SecondSignFails | src/com/makarov_denis_vertigo633/CalculatorImpl.java:136-140 | On any valid state whose token is a sign followed by a second sign, `unarySign` fails for want of a number at the second sign |
| Evaluator.OperandWanted | src/com/makarov_denis_vertigo633/CalculatorImpl.java:167-170 | The end of expression, where an operand is wanted, fails as not a number |
| Evaluator.StartFails | src/com/makarov_denis_vertigo633/CalculatorImpl.java:69-74 | A failure of the first operand of a statement is the failure of `calculate` |
| Evaluator.SignGuardAsIntended | src/com/makarov_denis_vertigo633/CalculatorImpl.java:136 | On valid states the sign guard is the same as "a DELIMETER token `+` or `-`" |
| Evaluator.BlankIsRejected | src/com/makarov_denis_vertigo633/CalculatorImpl.java:180-189 | An empty or whitespace-only statement has no expression; `evaluate` gives no result |
| Evaluator.UnrecognisedStartIsRejected | src/com/makarov_denis_vertigo633/CalculatorImpl.java:201-203 | A statement whose first character after the whitespace is unrecognised has no expression |
| Grammar.FirstOfSum | src/com/makarov_denis_vertigo633/CalculatorImpl.java:70-72 | A printed sum starts with a digit, a bracket or a sign, so its first token is never the end of expression |
| Grammar.ParseSum | src/com/makarov_denis_vertigo633/CalculatorImpl.java:88-103 | `addOrSubtract` on the first token of a printed sum computes the tree's value, with its operators grouped from the left, and continues after the sum; or it fails exactly as the tree does |
| Grammar.ParseTerm | src/com/makarov_denis_vertigo633/CalculatorImpl.java:108-127 | `divideOrMultiply` on a printed product, in the same sense |
| Grammar.ParseFactor | src/com/makarov_denis_vertigo633/CalculatorImpl.java:132-143 | `unarySign` on a printed factor gives its value and the token after it |
| Grammar.ParsePrimary | src/com/makarov_denis_vertigo633/CalculatorImpl.java:148-160 | `evalBrackets` on a printed primary gives its value and the token after it |
| Grammar.ParseLiteral | src/com/makarov_denis_vertigo633/CalculatorImpl.java:165-172 | A number literal is one NUMBER token, converted and consumed |
| Grammar.ParseParens | src/com/makarov_denis_vertigo633/CalculatorImpl.java:150-157 | A bracketed sum gives its value with both brackets consumed |
| Grammar.CalculatesSum | src/com/makarov_denis_vertigo633/CalculatorImpl.java:65-80 | `calculate` on a printed sum gives the tree's failure, or its value when the end of expression follows, or a trailing-token failure otherwise |
| Grammar.EvaluatesPrinted | src/com/makarov_denis_vertigo633/CalculatorImpl.java:65-172 | On a printed tree with one and the same run of spaces between every two tokens and any spaces before and after, `calculate` computes exactly what the tree evaluator computes, and `evaluate` gives no result exactly when the tree evaluator fails |
| Grammar.TrailingDelimiterIsRejected | src/com/makarov_denis_vertigo633/CalculatorImpl.java:76-77 | A sum followed by `)`, `=` or `(` is rejected even when its value is defined |
| Grammar.UnrecognisedTailIsIgnored | src/com/makarov_denis_vertigo633/CalculatorImpl.java:201-203 | A sum followed, after a gap or a closing bracket, by an unrecognised character is computed as if the statement ended there |
| Grammar.OperandMissingIsRejected | src/com/makarov_denis_vertigo633/CalculatorImpl.java:201-203 | An unrecognised character right after a `+` or `-` operator fails for want of a number |
| Grammar.TwoSignsAreRejected | src/com/makarov_denis_vertigo633/CalculatorImpl.java:136-140 | A statement that starts with two signs is rejected: the second one is where a number is wanted |
| Grammar.UnclosedBracketIsRejected | src/com/makarov_denis_vertigo633/CalculatorImpl.java:153-154 | A `(` whose sum runs to the end without a `)` is rejected, unless the sum fails first |
| Scenarios.ProductBindsTighter | src/com/makarov_denis_vertigo633/CalculatorImpl.java:88-127 | `x+y*z` is x + (y * z) |
| Scenarios.SubtractionGroupsLeft | src/com/makarov_denis_vertigo633/CalculatorImpl.java:93-101 | `x-y-z` is (x - y) - z |
| Scenarios.ProductThenQuotient | src/com/makarov_denis_vertigo633/CalculatorImpl.java:113-125 | `x*y/z` is (x * y) / z / z, and fails when z is zero |
| Scenarios.ProductOf | src/com/makarov_denis_vertigo633/CalculatorImpl.java:116-117 | `x*y` is x * y |
| Scenarios.QuotientDividesTwice | src/com/makarov_denis_vertigo633/CalculatorImpl.java:118-123 | `x/y` fails when y is zero and is otherwise x / y / y |
| Scenarios.SignBindsTighter | src/com/makarov_denis_vertigo633/CalculatorImpl.java:132-143 | `-x*y` is (-x) * y |
| Scenarios.BracketsGroupFirst | src/com/makarov_denis_vertigo633/CalculatorImpl.java:148-160 | `(x+y)*z` is (x + y) * z |
| Scenarios.LiteralAlone | src/com/makarov_denis_vertigo633/CalculatorImpl.java:165-172 | A literal alone is its converted value |
| Scenarios.MalformedLiteral | src/com/makarov_denis_vertigo633/CalculatorImpl.java:168 | A NUMBER token that the conversion refuses makes the statement fail |
| Scenarios.DigitLiteral | src/com/makarov_denis_vertigo633/CalculatorImpl.java:168 | A single digit is a literal with that digit's value |
| Scenarios.OneDecimalLiteral | src/com/makarov_denis_vertigo633/CalculatorImpl.java:168 | `a.b` is a literal with value (10a + b) / 10 |
| Scenarios.TwoPointsLiteral | src/com/makarov_denis_vertigo633/CalculatorImpl.java:194-200 | `a.b.c` is one NUMBER token, which the conversion refuses |
| Scenarios.OnePlusTwoTimesThree | src/com/makarov_denis_vertigo633/CalculatorImpl.java:88-127 | `"1+2*3"` is 7 |
| Scenarios.BracketedSumTimesThree | src/com/makarov_denis_vertigo633/CalculatorImpl.java:148-160 | `"(1+2)*3"` is 9 |
| Scenarios.EightOverTwo | src/com/makarov_denis_vertigo633/CalculatorImpl.java:122-123 | `"8/2"` is 2, not 4 |
| Scenarios.OneOverZero | src/com/makarov_denis_vertigo633/CalculatorImpl.java:119-120 | `"1/0"` fails, and `evaluate` gives no result |
| Scenarios.DecimalAlone | src/com/makarov_denis_vertigo633/CalculatorImpl.java:168 | `"4.5"` is 4.5 |
| Scenarios.TwoDecimalPoints | src/com/makarov_denis_vertigo633/CalculatorImpl.java:168 | `"4.5.6"` fails as a malformed number |
| Scenarios.MinusNegative | src/com/makarov_denis_vertigo633/CalculatorImpl.java:93-101 | `x--y` is x - (-y): the first `-` is the operator and the second the sign of the operand |
| Scenarios.OneMinusMinusFive | src/com/makarov_denis_vertigo633/CalculatorImpl.java:93-101 | `"1--5"` is 6 |
| Scenarios.DoubleMinus | src/com/makarov_denis_vertigo633/CalculatorImpl.java:136-140 | `"--5"` fails, and `evaluate` gives no result |
| Scenarios.MissingClose | src/com/makarov_denis_vertigo633/CalculatorImpl.java:153-154 | `"(1+2"` fails for want of `)` |
| Scenarios.ExtraClose | src/com/makarov_denis_vertigo633/CalculatorImpl.java:76-77 | `"1+2)"` fails with a token left over |
| Scenarios.StrayEquals | src/com/makarov_denis_vertigo633/CalculatorImpl.java:211 | `"1+2=3"` fails with the `=` left over |
| Scenarios.Blank | src/com/makarov_denis_vertigo633/CalculatorImpl.java:180-189 | `evaluate` on `""` and on `"   "` gives no result |
| Scenarios.TrailingLetter | src/com/makarov_denis_vertigo633/CalculatorImpl.java:201-203 | `"(1)a"` is 1, and so is `"(1)a="`: the `=` after the unrecognised `a` is never read |
| Scenarios.LetterAlone | src/com/makarov_denis_vertigo633/CalculatorImpl.java:201-203 | `"a"` has no expression |
| Scenarios.LetterOperand | src/com/makarov_denis_vertigo633/CalculatorImpl.java:201-203 | `"1+a"` fails for want of a number, and `evaluate` gives no result |
| Scenarios.LetterJoinsNumber | src/com/makarov_denis_vertigo633/CalculatorImpl.java:195-199 | `"1a"` is one NUMBER token, which the conversion refuses, so the statement fails and `evaluate` gives no result |
| Scenarios.SuffixLiteral | src/com/makarov_denis_vertigo633/CalculatorImpl.java:194-200 | `"1f"` is one NUMBER token, and the conversion accepts its suffix: it is 1 |
| Scenarios.ExponentLiteral | src/com/makarov_denis_vertigo633/CalculatorImpl.java:194-200 | `"2e1"` is one NUMBER token, and the conversion reads its exponent: it is 20 |
| Scenarios.EqualsAsOperand | src/com/makarov_denis_vertigo633/CalculatorImpl.java:165-170 | `"=1"` fails: a `=` where an operand is wanted is not a number |
| Scenarios.ThirtyEightLiteral | src/com/makarov_denis_vertigo633/CalculatorImpl.java:168 | `"38"` is a literal with value 38 |
| Scenarios.TwoPointLiteral | src/com/makarov_denis_vertigo633/CalculatorImpl.java:168 | `"2."` is a literal with value 2 |
| Scenarios.OneOverTwoPoint | src/com/makarov_denis_vertigo633/CalculatorImpl.java:118-123 | The tree of `1 / 2.` prints with single spaces as `"1 / 2."` and is 1 / 2 / 2 = 0.25 |
| Scenarios.DocumentedInner | src/com/makarov_denis_vertigo633/CalculatorImpl.java:88-103 | In the documented example, the sum `1 + 38` inside the brackets is 39 and the `)` follows it |
| Scenarios.DocumentedBrackets | src/com/makarov_denis_vertigo633/CalculatorImpl.java:148-160 | In the documented example, `(1 + 38)` is 39 and the next token is the `*` |
| Scenarios.DocumentedProduct | src/com/makarov_denis_vertigo633/CalculatorImpl.java:108-127 | In the documented example, `(1 + 38) * 4.5` is 175.5 and the next token is the `-` |
| Scenarios.DocumentedQuotient | src/com/makarov_denis_vertigo633/CalculatorImpl.java:108-127 | In the documented example, `1 / 2.` is 0.25 and the end of expression follows it |
| Scenarios.DocumentedSum | src/com/makarov_denis_vertigo633/CalculatorImpl.java:65-80 | Any statement with the characters of the documented example at those places is 175.25 |
| Scenarios.DocumentedExample | src/com/makarov_denis_vertigo633/CalculatorImpl.java:33 | The example in the documentation, `(1 + 38) * 4.5 - 1 / 2.`, is 175.25, and `evaluate` gives that value |
| Calculator.CalculatorImpl.constructor | src/com/makarov_denis_vertigo633/CalculatorImpl.java:25-27 | A new calculator has an empty expression and token, index 0 and token type NONE |
| Calculator.CalculatorImpl.GetToken | src/com/makarov_denis_vertigo633/CalculatorImpl.java:177-205 | The method leaves the token, type and index that `NextToken` describes, and the expression unchanged; the index stays within the expression and never moves back; the token has the shape of its type |
| Calculator.CalculatorImpl.SkipWhitespace | src/com/makarov_denis_vertigo633/CalculatorImpl.java:184-185 | The whitespace loop stops at the end of the expression or at a character that is not whitespace; it changes no other field and does not change the next token |
| Calculator.CalculatorImpl.ReadNumber | src/com/makarov_denis_vertigo633/CalculatorImpl.java:194-200 | The number loop appends characters to the token until the token is the NUMBER token that `NextToken` yields from the digit where it started |
| Calculator.CalculatorImpl.AddOrSubtract | src/com/makarov_denis_vertigo633/CalculatorImpl.java:88-103 | The method computes `Evaluator.AddOrSubtract` on the fields it starts with, and leaves the state that function gives |
| Calculator.CalculatorImpl.DivideOrMultiply | src/com/makarov_denis_vertigo633/CalculatorImpl.java:108-127 | The method computes `Evaluator.DivideOrMultiply`, in the same sense |
| Calculator.CalculatorImpl.UnarySign | src/com/makarov_denis_vertigo633/CalculatorImpl.java:132-143 | The method computes `Evaluator.UnarySign`, in the same sense |
| Calculator.CalculatorImpl.EvalBrackets | src/com/makarov_denis_vertigo633/CalculatorImpl.java:148-160 | The method computes `Evaluator.EvalBrackets`, in the same sense |
| Calculator.CalculatorImpl.ValueOfNumber | src/com/makarov_denis_vertigo633/CalculatorImpl.java:165-172 | The method computes `Evaluator.ValueOfNumber`, in the same sense |
| Calculator.CalculatorImpl.Calculate | src/com/makarov_denis_vertigo633/CalculatorImpl.java:65-80 | The result is `Evaluator.Calculate` of the statement alone, whatever state the calculator was in before |
| Calculator.CalculatorImpl.Evaluate | src/com/makarov_denis_vertigo633/CalculatorImpl.java:38-47 | The result is `Evaluator.Evaluate` of the statement: no result exactly where `calculate` fails |

## Left out

- The rounding and formatting of the result (`CalculatorImpl.java:49-50`). This covers the `BigDecimal` of the double, scale 4, half-even rounding and `toString`. It is library behaviour on binary doubles. `Evaluate` returns the exact value, or `None` for `null`.
- IEEE-754 doubles. Values are exact reals, so there is no overflow, rounding, infinity, NaN or negative zero, and the zero test of `/` is real equality. With reals, `new BigDecimal` cannot fail on NaN or an infinity outside the `try`.
- `Double.parseDouble` beyond decimal literals. A NUMBER token starts with a digit and holds no delimiter, so it carries neither a sign nor a signed exponent, and it cannot spell `Infinity` or `NaN`. After `String.trim`, the model accepts:
  - digits;
  - an optional point and further digits;
  - an optional `e`/`E` followed by digits;
  - an optional `f`/`F`/`d`/`D` suffix.
- NumberLiteral.ParseDouble: refuses hexadecimal floating-point literals such as `0x1p3`, which Java accepts. It is otherwise exact where Java rounds to the nearest double.
- `Character.isWhitespace` and `Character.isDigit` beyond ASCII. Whitespace is the space, U+0009 to U+000D and U+001C to U+001F. Digits are `0` to `9`.
- `Calculator.java` is an interface with no logic, and is not part of this model.
- The Java fields start out `null`. The model starts them as empty strings. Every method that reads them is private and runs after `calculate` has set them.
- The private procedures below `calculate` require a valid state. The model requires the index to lie within the expression and the token to have the shape `getToken` gives it, which holds whenever `calculate` calls them.
- `Calculator.CalculatorImpl.SkipWhitespace` and `Calculator.CalculatorImpl.ReadNumber` are the two loops of `getToken`, written as methods of their own. They update the same fields as the loops do in place.
- A `null` statement. `exp.length()` at `CalculatorImpl.java:180` would throw a `NullPointerException`, which the `catch` of `IllegalArgumentException` at line 44 does not catch, so `evaluate(null)` throws. A Dafny string cannot be null, so the model has no such input.
- Stack overflow. Each bracket level recurses from `evalBrackets` into `addOrSubtract` (`CalculatorImpl.java:152`), so a deeply nested statement ends in a `StackOverflowError`. The model has no depth limit and computes such statements.
- Grammar.EvaluatesPrinted: covers text with one and the same run of spaces between every two tokens. Mixed spacing, such as `"1 +2"`, is outside that theorem (`Scenarios.DocumentedExample` covers the one documented example with mixed spacing); `Lexer.SpaceIsSkipped` shows that whitespace before a token changes neither the token nor where it ends.
- Integer widths. `expIndex` is a `nat`. A Java `int` index cannot overflow here, because it never exceeds the length of a string.
