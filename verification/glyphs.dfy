/** The text transform that swaps ASCII operator characters for their display glyphs. */
module Glyphs {

  const MinusSign: char := '\U{2212}'
  const DivisionSign: char := '\U{00F7}'
  const MultiplicationSign: char := '\U{00D7}'

  /** `s` with every occurrence of `from` replaced by `to`. */
  function ReplaceAll(s: string, from: char, to: char): (r: string)
    ensures |r| == |s|
    ensures forall i :: 0 <= i < |s| ==> r[i] == if s[i] == from then to else s[i]
  {
    if |s| == 0 then []
    else [if s[0] == from then to else s[0]] + ReplaceAll(s[1..], from, to)
  }

  /** The display glyph of one character: only `-`, `/` and `*` change. */
  function Glyph(c: char): char {
    if c == '-' then MinusSign
    else if c == '/' then DivisionSign
    else if c == '*' then MultiplicationSign
    else c
  }

  /** The three replacements applied in turn; no glyph introduced by one is a
      character a later one looks for, so the result is a per-character map. */
  function MakeOperatorsLookNicer(text: string): (r: string)
    ensures |r| == |text|
    ensures forall i :: 0 <= i < |text| ==> r[i] == Glyph(text[i])
  {
    ReplaceAll(ReplaceAll(ReplaceAll(text, '-', MinusSign), '/', DivisionSign), '*', MultiplicationSign)
  }

  /** Applying the transform twice is the same as applying it once. */
  lemma {:induction false} MakeOperatorsLookNicerIdempotent(text: string)
    ensures MakeOperatorsLookNicer(MakeOperatorsLookNicer(text)) == MakeOperatorsLookNicer(text)
  {
    var once := MakeOperatorsLookNicer(text);
    var twice := MakeOperatorsLookNicer(once);
    assert forall i :: 0 <= i < |once| ==> twice[i] == once[i];
  }

  /** Characters other than the three ASCII operators, `%` and `+` among them, pass through. */
  lemma {:induction false} MakeOperatorsLookNicerKeeps(text: string, i: int)
    requires 0 <= i < |text| && text[i] != '-' && text[i] != '/' && text[i] != '*'
    ensures MakeOperatorsLookNicer(text)[i] == text[i]
  {
  }

  /** The three operator labels of the button grid become the minus, division and multiplication signs. */
  lemma {:induction false} MakeOperatorsLookNicerOperators()
    ensures MakeOperatorsLookNicer("-") == [MinusSign]
    ensures MakeOperatorsLookNicer("/") == [DivisionSign]
    ensures MakeOperatorsLookNicer("*") == [MultiplicationSign]
    ensures MakeOperatorsLookNicer("%") == "%" && MakeOperatorsLookNicer("+") == "+"
  {
  }
}
