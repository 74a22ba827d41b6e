/**
 * The test `!isNaN(Number(text))` used by the calculator to decide whether a
 * token's text is a number. `Number` applied to a string accepts the
 * StringNumericLiteral grammar of section 7.1.4.1.1 of ECMA-262 and yields NaN
 * for anything else: surrounding white space is ignored, a string of only white
 * space (or the empty string) denotes 0, a decimal literal may carry a sign, a
 * fraction and an exponent, "Infinity" is a number, and the unsigned forms
 * 0x/0o/0b are accepted. The grammar is recognised here by a finite automaton
 * that reads the text from left to right.
 */
module JsNumber {

  predicate IsDigit(c: char) {
    '0' <= c <= '9'
  }

  /** WhiteSpace and LineTerminator code points of ECMA-262 (sections 12.2 and 12.3). */
  predicate IsWhiteSpace(c: char) {
    || c == '\t' || c == '\n' || c == '\U{000B}' || c == '\U{000C}' || c == '\r'
    || c == ' ' || c == '\U{00A0}' || c == '\U{1680}'
    || ('\U{2000}' <= c <= '\U{200A}')
    || c == '\U{2028}' || c == '\U{2029}' || c == '\U{202F}' || c == '\U{205F}'
    || c == '\U{3000}' || c == '\U{FEFF}'
  }

  /** A digit of a non-decimal integer literal in base 16, 8 or 2. */
  predicate IsRadixDigit(base: nat, c: char) {
    if base == 16 then IsDigit(c) || 'a' <= c <= 'f' || 'A' <= c <= 'F'
    else if base == 8 then '0' <= c <= '7'
    else c == '0' || c == '1'
  }

  const InfinityText := "Infinity"

  /** Where the automaton stands after a prefix of the text. */
  datatype Scan =
    | Lead                  // only white space so far
    | Sign                  // a `+` or `-` after the white space
    | Zero                  // an unsigned leading `0`, which may start a 0x/0o/0b literal
    | Integer               // decimal digits, no `.` yet
    | Point                 // a `.` with no digit before it, and none after it yet
    | Fraction              // digits and one `.`, at least one digit
    | ExponentMark          // `e` or `E` after a mantissa
    | ExponentSign          // a sign after the exponent mark
    | ExponentDigits        // digits of the exponent
    | RadixMark(base: nat)  // `0x`, `0o` or `0b`
    | RadixDigits(base: nat)
    | InfinityPrefix(n: nat) // the first n characters of "Infinity"
    | Trail                 // white space after a complete literal
    | Dead                  // no continuation can be a literal

  /** Whether a text that ends in state `q` is a StringNumericLiteral. */
  predicate Accepting(q: Scan) {
    || q == Lead || q == Zero || q == Integer || q == Fraction || q == ExponentDigits
    || q.RadixDigits? || q == InfinityPrefix(|InfinityText|) || q == Trail
  }

  /** One step of the automaton. */
  function Step(q: Scan, c: char): Scan {
    if IsWhiteSpace(c) then
      if q == Lead then Lead
      else if Accepting(q) then Trail
      else Dead
    else
      match q
      case Lead =>
        if c == '+' || c == '-' then Sign
        else if c == '0' then Zero
        else if IsDigit(c) then Integer
        else if c == '.' then Point
        else if c == InfinityText[0] then InfinityPrefix(1)
        else Dead
      case Sign =>
        if IsDigit(c) then Integer
        else if c == '.' then Point
        else if c == InfinityText[0] then InfinityPrefix(1)
        else Dead
      case Zero =>
        if c == 'x' || c == 'X' then RadixMark(16)
        else if c == 'o' || c == 'O' then RadixMark(8)
        else if c == 'b' || c == 'B' then RadixMark(2)
        else if IsDigit(c) then Integer
        else if c == '.' then Fraction
        else if c == 'e' || c == 'E' then ExponentMark
        else Dead
      case Integer =>
        if IsDigit(c) then Integer
        else if c == '.' then Fraction
        else if c == 'e' || c == 'E' then ExponentMark
        else Dead
      case Point =>
        if IsDigit(c) then Fraction else Dead
      case Fraction =>
        if IsDigit(c) then Fraction
        else if c == 'e' || c == 'E' then ExponentMark
        else Dead
      case ExponentMark =>
        if c == '+' || c == '-' then ExponentSign
        else if IsDigit(c) then ExponentDigits
        else Dead
      case ExponentSign =>
        if IsDigit(c) then ExponentDigits else Dead
      case ExponentDigits =>
        if IsDigit(c) then ExponentDigits else Dead
      case RadixMark(base) =>
        if IsRadixDigit(base, c) then RadixDigits(base) else Dead
      case RadixDigits(base) =>
        if IsRadixDigit(base, c) then RadixDigits(base) else Dead
      case InfinityPrefix(n) =>
        if n < |InfinityText| && c == InfinityText[n] then InfinityPrefix(n + 1) else Dead
      case Trail => Dead
      case Dead => Dead
  }

  /** The state after reading `s` from state `q`. */
  function Run(q: Scan, s: string): Scan
    decreases |s|
  {
    if |s| == 0 then q else Run(Step(q, s[0]), s[1..])
  }

  /** `!isNaN(Number(text))`. */
  predicate IsNumeric(text: string) {
    Accepting(Run(Lead, text))
  }

  /** The dead state absorbs the rest of the text. */
  lemma {:induction false} RunDead(s: string)
    ensures Run(Dead, s) == Dead
  {
    if |s| > 0 {
      RunDead(s[1..]);
    }
  }

  /** A single character is numeric exactly when it is a decimal digit or white space. */
  lemma {:induction false} SingleCharNumeric(c: char)
    ensures IsNumeric([c]) <==> IsDigit(c) || IsWhiteSpace(c)
  {
    assert Run(Lead, [c]) == Run(Step(Lead, c), []);
  }

  /** The error marker shown after a failed evaluation is not a number. */
  lemma {:induction false} ErrIsNotNumeric()
    ensures !IsNumeric("ERR")
  {
    RunDead("RR");
  }
}
