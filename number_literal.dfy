/**
 * The conversion `Double.parseDouble` that `valueOfNumber` applies to the text
 * of a NUMBER token, restricted to decimal literals and computed exactly.
 *
 * A NUMBER token starts with a digit and holds no delimiter, so it can carry
 * neither a sign nor a signed exponent. Within that shape the literal is
 *   digits [ '.' digits? ] [ ('e' | 'E') digits ] [ 'f' | 'F' | 'd' | 'D' ]
 * after `String.trim` has removed the surrounding characters up to U+0020.
 */
module NumberLiteral {
  import opened Outcomes
  import opened Lexer

  /** The characters `String.trim` removes: every code point up to U+0020. */
  predicate IsTrimmed(c: char) {
    c <= ' '
  }

  function TrimStart(s: string): (t: string)
    ensures |t| <= |s| && t == s[|s| - |t|..]
    ensures forall k | 0 <= k < |s| - |t| :: IsTrimmed(s[k])
    ensures t == [] || !IsTrimmed(t[0])
  {
    if |s| > 0 && IsTrimmed(s[0]) then TrimStart(s[1..]) else s
  }

  function TrimEnd(s: string): (t: string)
    ensures |t| <= |s| && t == s[..|t|]
    ensures forall k | |t| <= k < |s| :: IsTrimmed(s[k])
    ensures t == [] || !IsTrimmed(t[|t| - 1])
  {
    if |s| > 0 && IsTrimmed(s[|s| - 1]) then TrimEnd(s[..|s| - 1]) else s
  }

  /** `String.trim`. */
  function Trim(s: string): string {
    TrimEnd(TrimStart(s))
  }

  predicate AllDigits(d: string) {
    forall k | 0 <= k < |d| :: IsDigit(d[k])
  }

  /** The end of the run of digits that starts at `i`. */
  function DigitRun(s: string, i: nat): (j: nat)
    requires i <= |s|
    ensures i <= j <= |s|
    ensures forall k | i <= k < j :: IsDigit(s[k])
    ensures j == |s| || !IsDigit(s[j])
    decreases |s| - i
  {
    if i < |s| && IsDigit(s[i]) then DigitRun(s, i + 1) else i
  }

  /** The natural number a string of decimal digits denotes. */
  function DigitsValue(d: string): nat
    requires AllDigits(d)
  {
    if d == [] then 0 else DigitsValue(d[..|d| - 1]) * 10 + (d[|d| - 1] as int - '0' as int)
  }

  function Pow10(n: nat): (p: nat)
    ensures p >= 1
  {
    if n == 0 then 1 else 10 * Pow10(n - 1)
  }

  /** The two stages of `Double.parseDouble`: trimming the front, then converting the rest. */
  datatype Stage = Trimming | Converting

  /**
   * `Double.parseDouble(text)` on the literals above, as an exact rational;
   * `None` where Java throws NumberFormatException. A literal has no sign, so
   * its value is never negative, and it is accepted only if its trimmed text
   * starts with a digit.
   */
  function ParseDouble(text: string): (r: Option<real>)
    ensures r.Some? ==> 0.0 <= r.value
  {
    Convert(text, Trimming)
  }

  /** `Double.parseDouble` in the given stage, with the front not yet trimmed while `Trimming`. */
  function Convert(text: string, stage: Stage): (r: Option<real>)
    ensures r.Some? ==> 0.0 <= r.value
    decreases |text|, if stage == Trimming then 1 else 0
  {
    match stage
    case Trimming =>
      if |text| > 0 && IsTrimmed(text[0]) then Convert(text[1..], Trimming)
      else Convert(text, Converting)
    case Converting => ParseTrimmed(TrimEnd(text))
  }

  /** Trimming both ends and then converting is what `Double.parseDouble` does. */
  lemma {:induction false} ParseDoubleTrims(text: string)
    ensures ParseDouble(text) == ParseTrimmed(Trim(text))
    ensures ParseDouble(text).Some? ==> |Trim(text)| > 0 && IsDigit(Trim(text)[0])
    decreases |text|
  {
    if |text| > 0 && IsTrimmed(text[0]) {
      ParseDoubleTrims(text[1..]);
      assert TrimStart(text) == TrimStart(text[1..]);
      assert ParseDouble(text) == ParseDouble(text[1..]);
    } else {
      assert TrimStart(text) == text;
      assert ParseDouble(text) == Convert(text, Converting);
    }
  }

  /** The type suffixes `f`, `F`, `d` and `D`. */
  predicate IsSuffix(c: char) {
    c == 'f' || c == 'F' || c == 'd' || c == 'D'
  }

  /** The literal grammar applied to text that has already been trimmed. */
  function ParseTrimmed(u: string): (r: Option<real>)
    ensures r.Some? ==> 0.0 <= r.value
    ensures r.Some? ==> |u| > 0 && IsDigit(u[0])
  {
    var a := DigitRun(u, 0);
    var dot := a < |u| && u[a] == '.';
    var b := if dot then DigitRun(u, a + 1) else a;
    var fraction := if dot then u[a + 1..b] else "";
    var power := b < |u| && (u[b] == 'e' || u[b] == 'E');
    var c := if power then DigitRun(u, b + 1) else b;
    if a == 0 || (power && c == b + 1) then None
    else if c < |u| && !(c + 1 == |u| && IsSuffix(u[c])) then None
    else
      assert AllDigits(u[..a]) && AllDigits(fraction);
      DigitsConcat(u[..a], fraction);
      var mantissa := DigitsValue(u[..a] + fraction);
      var exponent := if power then DigitsValue(u[b + 1..c]) else 0;
      Some(Scaled(mantissa, exponent, |fraction|))
  }

  /** `mantissa` times ten to the `exponent`, divided by ten to the `scale`. */
  function Scaled(mantissa: nat, exponent: nat, scale: nat): (v: real)
    ensures 0.0 <= v
  {
    var n: nat := mantissa * Pow10(exponent);
    n as real / Pow10(scale) as real
  }

  lemma DigitsConcat(x: string, y: string)
    requires AllDigits(x) && AllDigits(y)
    ensures AllDigits(x + y)
  {
  }

  /** Text whose first and last characters survive `String.trim` is left as it is. */
  lemma TrimKeeps(s: string)
    requires |s| > 0 && !IsTrimmed(s[0]) && !IsTrimmed(s[|s| - 1])
    ensures Trim(s) == s
  {
    assert TrimStart(s) == s;
  }

  /** A string of digits denotes its decimal value. */
  lemma ParsesDigits(d: string)
    requires |d| > 0 && AllDigits(d)
    ensures ParseDouble(d) == Some(DigitsValue(d) as real)
  {
    TrimKeeps(d);
    ParseDoubleTrims(d);
    assert DigitRun(d, 0) == |d|;
    assert d[..|d|] + "" == d;
    assert ParseTrimmed(d) == Some(Scaled(DigitsValue(d), 0, 0));
    assert Scaled(DigitsValue(d), 0, 0) == DigitsValue(d) as real;
  }

  /** `d1.d2` denotes the digits of `d1` and `d2` together, scaled down by the length of `d2`. */
  lemma ParsesDecimal(d1: string, d2: string)
    requires |d1| > 0 && AllDigits(d1) && AllDigits(d2)
    ensures ParseDouble(d1 + "." + d2) ==
      Some(Scaled(DigitsValue(d1 + d2), 0, |d2|))
  {
    var u := d1 + "." + d2;
    TrimKeeps(u);
    ParseDoubleTrims(u);
    assert u[|d1|] == '.';
    assert DigitRun(u, 0) == |d1|;
    assert DigitRun(u, |d1| + 1) == |u|;
    assert u[|d1| + 1..|u|] == d2;
    assert u[..|d1|] == d1;
  }

  /** A type suffix `f`, `F`, `d` or `D` after the digits changes nothing: "1f" denotes 1. */
  lemma ParsesSuffixed(d: string, c: char)
    requires |d| > 0 && AllDigits(d) && IsSuffix(c)
    ensures ParseDouble(d + [c]) == Some(DigitsValue(d) as real)
  {
    var u := d + [c];
    TrimKeeps(u);
    ParseDoubleTrims(u);
    assert u[|d|] == c;
    assert DigitRun(u, 0) == |d|;
    assert u[..|d|] + "" == d;
    assert ParseTrimmed(u) == Some(Scaled(DigitsValue(d), 0, 0));
    assert Scaled(DigitsValue(d), 0, 0) == DigitsValue(d) as real;
  }

  /** `d e x` denotes the digits of `d` times ten to the digits of `x`: "2e1" denotes 20. */
  lemma ParsesExponent(d: string, x: string)
    requires |d| > 0 && AllDigits(d) && |x| > 0 && AllDigits(x)
    ensures ParseDouble(d + "e" + x) == Some(Scaled(DigitsValue(d), DigitsValue(x), 0))
  {
    var u := d + "e" + x;
    TrimKeeps(u);
    ParseDoubleTrims(u);
    var a := |d|;
    assert u[a] == 'e' && u[a] != '.';
    assert DigitRun(u, 0) == a;
    assert DigitRun(u, a + 1) == |u|;
    assert u[a + 1..|u|] == x;
    assert u[..a] + "" == d;
  }

  /** A literal with a second decimal point, such as "4.5.6", is rejected. */
  lemma RejectsSecondPoint(d1: string, d2: string, d3: string)
    requires |d1| > 0 && AllDigits(d1) && AllDigits(d2) && AllDigits(d3)
    ensures ParseDouble(d1 + "." + d2 + "." + d3) == None
  {
    var u := d1 + "." + d2 + "." + d3;
    TrimKeeps(u);
    ParseDoubleTrims(u);
    var b := |d1| + 1 + |d2|;
    assert u[|d1|] == '.' && u[b] == '.';
    assert DigitRun(u, 0) == |d1|;
    assert DigitRun(u, |d1| + 1) == b;
  }
}
