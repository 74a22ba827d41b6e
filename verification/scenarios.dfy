/**
 * Concrete press sequences: the behaviour the calculator is meant to show on
 * small inputs, and the quirks of the code as written.
 */
module CalculatorScenarios {
  import opened Wrappers
  import opened JsNumber
  import opened Buttons
  import opened Tokens
  import opened Calculator
  import opened CalculatorProperties
  import opened CalculatorInvariant

  /** The digit `3` starts afresh after the reset answer. */
  lemma {:induction false} ThreeAfterReset(eval: Evaluator)
    ensures Press(DefaultDisplay, Three, eval) == [Token("3", Pressed)]
  {
    FreshStartAfterAnswer(DefaultDisplay, Three, eval);
  }

  /** A lone symbol without `.` leaves no `.` in the trailing run. */
  lemma {:induction false} NoDotInSingle(t: Token)
    requires CountChar(t.text, '.') == 0
    ensures CountChar(TrailingRun(Concat([t])), '.') == 0
  {
    ConcatSingle(t);
    NoCharInSuffix(t.text, TrailingRun(t.text), '.');
  }

  /** `.` is accepted after `3`. */
  lemma {:induction false} DecimalAfterThree(eval: Evaluator)
    ensures Press([Token("3", Pressed)], Decimal, eval) == [Token("3", Pressed), Token(".", Pressed)]
  {
    var s := [Token("3", Pressed)];
    assert s + [Token(".", Pressed)] == [Token("3", Pressed), Token(".", Pressed)];
    assert CountChar(TrailingRun(Concat(s)), '.') == 0 by {
      NoDotInSingle(Token("3", Pressed));
    }
    DecimalAppended(s, eval);
  }

  /** A second `.` after `3 .` is rejected. */
  lemma {:induction false} DecimalAfterThreeDecimal(eval: Evaluator)
    ensures Press([Token("3", Pressed), Token(".", Pressed)], Decimal, eval)
            == [Token("3", Pressed), Token(".", Pressed)]
  {
    var s := [Token("3", Pressed), Token(".", Pressed)];
    assert CountChar(TrailingRun(Concat(s)), '.') > 0 by {
      assert s == [Token("3", Pressed)] + [Token(".", Pressed)];
      ConcatAppend([Token("3", Pressed)], Token(".", Pressed));
      TrailingRunDot(Concat([Token("3", Pressed)]));
    }
    DecimalRejected(s, eval);
  }

  /** A second `.` in the same number is rejected: `3 . .` from the reset stream. */
  lemma {:induction false} RepeatedDecimal(eval: Evaluator)
    ensures PressAll(DefaultDisplay, [Three, Decimal, Decimal], eval)
            == Some([Token("3", Pressed), Token(".", Pressed)])
  {
    var s1 := [Token("3", Pressed)];
    var s2 := [Token("3", Pressed), Token(".", Pressed)];
    var p := [Three, Decimal, Decimal];
    ThreeAfterReset(eval);
    DecimalAfterThree(eval);
    DecimalAfterThreeDecimal(eval);
    PressAllStep(DefaultDisplay, p, eval);
    PressAllStep(s1, p[1..], eval);
    PressAllStep(s2, p[2..], eval);
    assert p[2..][1..] == [];
  }

  /** `+` after the reset answer is appended. */
  lemma {:induction false} PlusAfterReset(eval: Evaluator)
    ensures Press(DefaultDisplay, Plus, eval) == [Token("0", Answer), Token("+", Pressed)]
  {
    assert "0" == ['0'];
    SingleCharNumeric('0');
    OperatorAfterNumber(DefaultDisplay, Plus, eval);
  }

  /** `+` after `0 +` replaces the `+`. */
  lemma {:induction false} PlusAfterPlus(eval: Evaluator)
    ensures Press([Token("0", Answer), Token("+", Pressed)], Plus, eval)
            == [Token("0", Answer), Token("+", Pressed)]
  {
    var s := [Token("0", Answer), Token("+", Pressed)];
    IsOperationIff("+");
    OperatorReplacesOperator(s, Plus, eval);
    assert s[..1] + [Token("+", Pressed)] == s;
  }

  /** `+ +` from the reset stream: the second `+` replaces the first. */
  lemma {:induction false} RepeatedPlus(eval: Evaluator)
    ensures PressAll(DefaultDisplay, [Plus, Plus], eval)
            == Some([Token("0", Answer), Token("+", Pressed)])
  {
    var s1 := [Token("0", Answer), Token("+", Pressed)];
    var p := [Plus, Plus];
    PlusAfterReset(eval);
    PlusAfterPlus(eval);
    PressAllStep(DefaultDisplay, p, eval);
    PressAllStep(s1, p[1..], eval);
    assert p[1..][1..] == [];
  }

  /** An operator after `0 + .` drops both the `.` and the `+`, because the second pop
      still tests the `.` read before the first. */
  lemma {:induction false} StaleLastSymbol(eval: Evaluator)
    ensures Press([Token("0", Answer), Token("+", Pressed), Token(".", Pressed)], Minus, eval)
            == [Token("0", Answer), Token("-", Pressed)]
  {
    var s := [Token("0", Answer), Token("+", Pressed), Token(".", Pressed)];
    IsOperationIff("+");
    OperatorDropsDanglingDot(s, Minus, eval);
  }

  /** After the answer 42 a digit starts afresh. */
  lemma {:induction false} DigitAfterFortyTwo(eval: Evaluator)
    ensures Press([Token("42", Answer)], Five, eval) == [Token("5", Pressed)]
  {
    FreshStartAfterAnswer([Token("42", Answer)], Five, eval);
  }

  /** After the answer 42 a `.` is appended: it does not start afresh. */
  lemma {:induction false} DecimalAfterFortyTwo(eval: Evaluator)
    ensures Press([Token("42", Answer)], Decimal, eval) == [Token("42", Answer), Token(".", Pressed)]
  {
    var s := [Token("42", Answer)];
    assert s + [Token(".", Pressed)] == [Token("42", Answer), Token(".", Pressed)];
    assert CountChar(TrailingRun(Concat(s)), '.') == 0 by {
      NoDotInSingle(Token("42", Answer));
    }
    DecimalAppended(s, eval);
  }

  /** After an error a digit is appended to the error marker, not a fresh start. */
  lemma {:induction false} NoFreshStartAfterError(eval: Evaluator)
    ensures Press([Token("ERR", Error)], Five, eval) == [Token("ERR", Error), Token("5", Pressed)]
  {
    FreshStartAfterAnswer([Token("ERR", Error)], Five, eval);
  }

  /** A digit pressed first after the reset stream starts afresh. */
  lemma {:induction false} DigitFromReset(d: Button, rest: seq<Button>, eval: Evaluator)
    requires IsDigitButton(d)
    ensures PressAll(DefaultDisplay, [d] + rest, eval) == PressAll([PressedToken(d)], rest, eval)
  {
    FreshStartAfterAnswer(DefaultDisplay, d, eval);
    PressAllStep(DefaultDisplay, [d] + rest, eval);
    assert ([d] + rest)[1..] == rest;
  }

  /** An arithmetic operator after a lone typed digit is appended. */
  lemma {:induction false} OperatorAfterDigit(d: Button, op: Button, rest: seq<Button>, eval: Evaluator)
    requires IsDigitButton(d) && IsArithmeticButton(op)
    ensures PressAll([PressedToken(d)], [op] + rest, eval)
            == PressAll([PressedToken(d), PressedToken(op)], rest, eval)
  {
    var s := [PressedToken(d)];
    DigitButtonNumeric(d);
    OperatorAfterNumber(s, op, eval);
    assert s + [PressedToken(op)] == [PressedToken(d), PressedToken(op)];
    PressAllStep(s, [op] + rest, eval);
    assert ([op] + rest)[1..] == rest;
  }

  /** A digit after a typed digit and operator is appended. */
  lemma {:induction false} DigitAfterOperator(d1: Button, op: Button, d2: Button, rest: seq<Button>, eval: Evaluator)
    requires IsDigitButton(d2)
    ensures PressAll([PressedToken(d1), PressedToken(op)], [d2] + rest, eval)
            == PressAll([PressedToken(d1), PressedToken(op), PressedToken(d2)], rest, eval)
  {
    var s := [PressedToken(d1), PressedToken(op)];
    FreshStartAfterAnswer(s, d2, eval);
    assert s + [PressedToken(d2)] == [PressedToken(d1), PressedToken(op), PressedToken(d2)];
    PressAllStep(s, [d2] + rest, eval);
    assert ([d2] + rest)[1..] == rest;
  }

  /** `d1 op d2` typed from the reset stream, followed by any further presses. */
  lemma {:induction false} DigitOperatorDigit(d1: Button, op: Button, d2: Button, rest: seq<Button>, eval: Evaluator)
    requires IsDigitButton(d1) && IsArithmeticButton(op) && IsDigitButton(d2)
    ensures PressAll(DefaultDisplay, [d1, op, d2] + rest, eval)
            == PressAll([PressedToken(d1), PressedToken(op), PressedToken(d2)], rest, eval)
  {
    assert [d1, op, d2] + rest == [d1] + ([op] + ([d2] + rest));
    DigitFromReset(d1, [op] + ([d2] + rest), eval);
    OperatorAfterDigit(d1, op, [d2] + rest, eval);
    DigitAfterOperator(d1, op, d2, rest, eval);
  }

  /** The joined text of three one-character symbols. */
  lemma {:induction false} ConcatThree(a: Token, b: Token, c: Token)
    ensures Concat([a, b, c]) == a.text + b.text + c.text
  {
    ConcatSingle(a);
    assert [a, b] == [a] + [b];
    ConcatAppend([a], b);
    assert [a, b, c] == [a, b] + [c];
    ConcatAppend([a, b], c);
  }

  /** `=` after `d1 op d2` evaluates the three characters. */
  lemma {:induction false} EqualAfterDigitOperatorDigit(d1: Button, op: Button, d2: Button, eval: Evaluator)
    requires IsDigitButton(d2)
    requires |d1.value| == 1 && |op.value| == 1
    ensures Press([PressedToken(d1), PressedToken(op), PressedToken(d2)], Equal, eval)
            == Wrap(eval(d1.value + op.value + d2.value))
  {
    var s3 := [PressedToken(d1), PressedToken(op), PressedToken(d2)];
    ConcatThree(PressedToken(d1), PressedToken(op), PressedToken(d2));
    DigitButtonNumeric(d2);
    assert DotTrimmed(s3) == s3;
    EqualTrimsOnlyLoneOperation(s3);
    EvaluationPresses(s3, eval);
  }

  /** `=` as the last press of a sequence after `d1 op d2`. */
  lemma {:induction false} EqualEndsDigitOperatorDigit(d1: Button, op: Button, d2: Button, eval: Evaluator)
    requires IsDigitButton(d2)
    requires |d1.value| == 1 && |op.value| == 1
    ensures PressAll([PressedToken(d1), PressedToken(op), PressedToken(d2)], [Equal], eval)
            == Some(Wrap(eval(d1.value + op.value + d2.value)))
  {
    var s3 := [PressedToken(d1), PressedToken(op), PressedToken(d2)];
    EqualAfterDigitOperatorDigit(d1, op, d2, eval);
    PressAllStep(s3, [Equal], eval);
    assert [Equal][1..] == [];
  }

  /** The sequence `d1 op d2 =` evaluates `d1 op d2`. */
  lemma {:induction false} EvaluateDigitOperatorDigit(d1: Button, op: Button, d2: Button, eval: Evaluator)
    requires IsDigitButton(d1) && IsArithmeticButton(op) && IsDigitButton(d2)
    ensures PressAll(DefaultDisplay, [d1, op, d2, Equal], eval)
            == Some(Wrap(eval(d1.value + op.value + d2.value)))
  {
    assert [d1, op, d2] + [Equal] == [d1, op, d2, Equal];
    DigitOperatorDigit(d1, op, d2, [Equal], eval);
    EqualEndsDigitOperatorDigit(d1, op, d2, eval);
  }

  /** `1 + 2 =` yields the single answer the evaluator gives for "1+2". */
  lemma {:induction false} OnePlusTwo(eval: Evaluator)
    requires eval("1+2") == Some("3")
    ensures PressAll(DefaultDisplay, [One, Plus, Two, Equal], eval) == Some([Token("3", Answer)])
  {
    var text := One.value + Plus.value + Two.value;
    assert PressAll(DefaultDisplay, [One, Plus, Two, Equal], eval) == Some(Wrap(eval(text))) by {
      EvaluateDigitOperatorDigit(One, Plus, Two, eval);
    }
    assert text == "1+2";
  }

  /** `5 / 0 =` yields the error marker when the evaluator fails on "5/0". */
  lemma {:induction false} FiveOverZero(eval: Evaluator)
    requires eval("5/0") == None
    ensures PressAll(DefaultDisplay, [Five, Divide, Buttons.Zero, Equal], eval) == Some([Token("ERR", Error)])
  {
    var text := Five.value + Divide.value + Buttons.Zero.value;
    assert PressAll(DefaultDisplay, [Five, Divide, Buttons.Zero, Equal], eval) == Some(Wrap(eval(text))) by {
      EvaluateDigitOperatorDigit(Five, Divide, Buttons.Zero, eval);
    }
    assert text == "5/0";
  }

  /** Negate after `7` evaluates "7* -1". */
  lemma {:induction false} NegateAfterSeven(eval: Evaluator)
    ensures Press([Token("7", Pressed)], Negate, eval) == Wrap(eval("7* -1"))
  {
    var s := [Token("7", Pressed)];
    assert Concat(s) + "* -1" == "7* -1" by {
      ConcatSingle(Token("7", Pressed));
    }
    EvaluationPresses(s, eval);
  }

  /** `7 neg` evaluates "7* -1". */
  lemma {:induction false} NegateSeven(eval: Evaluator)
    requires eval("7* -1") == Some("-7")
    ensures PressAll(DefaultDisplay, [Seven, Negate], eval) == Some([Token("-7", Answer)])
  {
    var s1 := [Token("7", Pressed)];
    var p := [Seven, Negate];
    assert PressAll(DefaultDisplay, p, eval) == PressAll(s1, p[1..], eval) by {
      FreshStartAfterAnswer(DefaultDisplay, Seven, eval);
      PressAllStep(DefaultDisplay, p, eval);
    }
    assert PressAll(s1, p[1..], eval) == Some(Wrap(eval("7* -1"))) by {
      NegateAfterSeven(eval);
      PressAllStep(s1, p[1..], eval);
      assert p[1..][1..] == [];
    }
  }
}
