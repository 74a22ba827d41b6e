/**
 * What the press handler guarantees: the guards on `.`, `%` and the operators,
 * the fresh start after an answer, the shape of every accepted insertion, and
 * an invariant of every stream the calculator can reach that makes each press
 * well defined.
 */
module CalculatorProperties {
  import opened Wrappers
  import opened JsNumber
  import opened Buttons
  import opened Tokens
  import opened Calculator

  /** Button values that a press can leave in the stream (all but the special ones and `=`). */
  predicate Storable(v: string) {
    v in {"0", "1", "2", "3", "4", "5", "6", "7", "8", "9", ".", "%", "/", "*", "-", "+"}
  }

  /** A table button that reaches the insertion logic stores its value. */
  lemma {:induction false} InsertedValuesStorable(b: Button)
    requires b in Table && b.value !in {"=", "neg", "ac"}
    ensures Storable(b.value) && b.kind != Special
  {
  }

  /** Among storable values the numbers are exactly the digits. */
  lemma {:induction false} StorableNumeric(v: string)
    requires Storable(v)
    ensures IsNumeric(v) <==> v !in {".", "%", "/", "*", "-", "+"}
  {
    var c := v[0];
    assert v == [c];
    SingleCharNumeric(c);
    assert !IsWhiteSpace(c);
    assert IsDigit(c) <==> v !in {".", "%", "/", "*", "-", "+"};
  }

  /** Among storable values the operations are the four arithmetic operators. */
  lemma {:induction false} StorableOperation(v: string)
    requires Storable(v)
    ensures IsOperation(v) <==> v in {"/", "*", "-", "+"}
  {
    IsOperationIff(v);
  }

  predicate NoAdjacentOperations(s: Stream) {
    forall i :: 0 < i < |s| ==> !(IsOperation(s[i - 1].text) && IsOperation(s[i].text))
  }

  /** Every symbol after the first came from a press of a storable button. */
  predicate PressedTail(s: Stream) {
    forall i :: 0 < i < |s| ==> s[i].kind == Pressed && Storable(s[i].text)
  }

  predicate PercentAfterNumber(s: Stream) {
    forall i :: 0 < i < |s| ==> s[i].text == "%" ==> IsNumeric(s[i - 1].text)
  }

  /** The invariant of reachable streams: never empty, never `.` first, only pressed
      symbols after the first, no two operations in a row, `%` only after a number,
      and at most one `.` in every numeric run of the joined text. */
  predicate Valid(s: Stream) {
    && |s| > 0
    && s[0].text != "."
    && PressedTail(s)
    && NoAdjacentOperations(s)
    && PercentAfterNumber(s)
    && OneDotPerRun(Concat(s))
  }

  /** An evaluator whose result texts never are a lone `.` and keep one `.` per run. */
  ghost predicate WellBehaved(eval: Evaluator) {
    forall t :: eval(t).Some? ==> eval(t).value != "." && OneDotPerRun(eval(t).value)
  }

  /** The reset stream satisfies the invariant. */
  lemma {:induction false} DefaultDisplayValid()
    ensures Valid(DefaultDisplay)
  {
    ConcatSingle(DefaultValue);
    assert OneDotPerRun("0"[..0]);
  }

  /** The invariant makes every press well defined (no read of a missing symbol). */
  lemma {:induction false} ValidCanPress(s: Stream, b: Button)
    requires Valid(s)
    ensures CanPress(s, b)
  {
  }

  /** A press that is not `=`, negate or all-clear goes to the insertion logic. */
  lemma {:induction false} PressInserts(s: Stream, b: Button, eval: Evaluator)
    requires CanPress(s, b)
    requires b.value != "=" && b.value != "neg" && b.value != "ac"
    ensures Press(s, b, eval) == Insert(s, b)
  {
  }

  /** A value press that passes the `.` and `%` guards and does not start afresh is appended. */
  lemma {:induction false} InsertAppendsValue(s: Stream, b: Button)
    requires |s| > 0 && b.kind == Value
    requires !(b.value == "." && IndexOf(TrailingRun(Concat(s)), '.') != -1)
    requires !(b.value == "%" && !IsNumeric(Last(s).text))
    requires !StartsFresh(s, b)
    ensures Insert(s, b) == s + [PressedToken(b)]
  {
  }

  /** `.` is neither `=`, negate nor all-clear. */
  lemma {:induction false} DecimalInserts(s: Stream, eval: Evaluator)
    requires |s| > 0
    ensures Press(s, Decimal, eval) == Insert(s, Decimal)
  {
    assert Decimal.value == [Decimal.value[0]] && Decimal.value[0] == '.';
    PressInserts(s, Decimal, eval);
  }

  /** `.` is rejected, leaving the stream as it was, when the trailing numeric run already holds one. */
  lemma {:induction false} DecimalRejected(s: Stream, eval: Evaluator)
    requires |s| > 0 && CountChar(TrailingRun(Concat(s)), '.') > 0
    ensures Press(s, Decimal, eval) == s
  {
    DecimalInserts(s, eval);
  }

  /** Without a `.` in the trailing run, `.` is appended (never a fresh start). */
  lemma {:induction false} DecimalAppended(s: Stream, eval: Evaluator)
    requires |s| > 0 && CountChar(TrailingRun(Concat(s)), '.') == 0
    ensures Press(s, Decimal, eval) == s + [Token(".", Pressed)]
  {
    DecimalInserts(s, eval);
    InsertAppendsValue(s, Decimal);
  }

  /** Otherwise `.` is appended and the new trailing run holds exactly one `.`. */
  lemma {:induction false} DecimalAccepted(s: Stream, eval: Evaluator)
    requires |s| > 0 && CountChar(TrailingRun(Concat(s)), '.') == 0
    ensures Press(s, Decimal, eval) == s + [Token(".", Pressed)]
    ensures CountChar(TrailingRun(Concat(s + [Token(".", Pressed)])), '.') == 1
  {
    assert CountChar(TrailingRun(Concat(s + [Token(".", Pressed)])), '.') == 1 by {
      ConcatAppend(s, Token(".", Pressed));
      TrailingRunDot(Concat(s));
    }
    DecimalAppended(s, eval);
  }

  /** `%` after a symbol whose text is not a number leaves the stream as it was (nothing
      is popped first); after a number it is appended. */
  lemma {:induction false} PercentPress(s: Stream, eval: Evaluator)
    requires |s| > 0
    ensures !IsNumeric(Last(s).text) ==> Press(s, Percent, eval) == s
    ensures IsNumeric(Last(s).text) ==> Press(s, Percent, eval) == s + [Token("%", Pressed)]
  {
    assert Percent.value == "%" && Percent.value != "." && Percent.value != "=";
    PressInserts(s, Percent, eval);
  }

  /** A digit button's value is a number and not an operation. */
  lemma {:induction false} DigitButtonNumeric(b: Button)
    requires IsDigitButton(b)
    ensures IsNumeric(b.value) && !IsOperation(b.value)
  {
    var c := b.value[0];
    assert b.value == [c];
    SingleCharNumeric(c);
    IsOperationIff(b.value);
  }

  /** A digit press after an answer starts a fresh stream; after anything else, an
      error included, it is appended. */
  lemma {:induction false} FreshStartAfterAnswer(s: Stream, b: Button, eval: Evaluator)
    requires |s| > 0 && IsDigitButton(b)
    ensures Last(s).kind == Answer ==> Press(s, b, eval) == [Token(b.value, Pressed)]
    ensures Last(s).kind != Answer ==> Press(s, b, eval) == s + [Token(b.value, Pressed)]
  {
    assert b.value != "." && b.value != "%" && b.value != "=" && b.value != "neg" && b.value != "ac" by {
      assert b.value == [b.value[0]];
    }
    PressInserts(s, b, eval);
  }

  /** An operation other than `.` or `%` is appended to the collapsed stream. */
  lemma {:induction false} InsertAppendsOperation(s: Stream, b: Button)
    requires |s| > 0 && b.kind == Operation && b.value != "." && b.value != "%"
    requires Last(s).text == "." ==> |s| >= 2
    ensures Insert(s, b) == Collapse(s, b) + [PressedToken(b)]
  {
  }

  /** An operator after a number is appended with nothing popped. */
  lemma {:induction false} OperatorAfterNumber(s: Stream, b: Button, eval: Evaluator)
    requires |s| > 0 && IsNumeric(Last(s).text)
    requires IsArithmeticButton(b)
    ensures Press(s, b, eval) == s + [PressedToken(b)]
  {
    assert Insert(s, b) == s + [PressedToken(b)] by {
      assert "." == ['.'];
      SingleCharNumeric('.');
      InsertAppendsOperation(s, b);
    }
    PressInserts(s, b, eval);
  }

  /** An operator after an operator replaces it. */
  lemma {:induction false} OperatorReplacesOperator(s: Stream, b: Button, eval: Evaluator)
    requires |s| > 0 && Last(s).text in {"/", "*", "-", "+", "="}
    requires IsArithmeticButton(b)
    ensures Press(s, b, eval) == s[..|s| - 1] + [PressedToken(b)]
  {
    assert Insert(s, b) == s[..|s| - 1] + [PressedToken(b)] by {
      IsOperationIff(Last(s).text);
      OperationsAreNotNumbers(Last(s).text);
      InsertAppendsOperation(s, b);
    }
    PressInserts(s, b, eval);
  }

  /** An operator after an operation and a dangling `.` removes both: the `.` by the
      first pop and the operation by the second, which still tests the `.`. */
  lemma {:induction false} OperatorDropsDanglingDot(s: Stream, b: Button, eval: Evaluator)
    requires |s| >= 2 && Last(s).text == "." && IsOperation(s[|s| - 2].text)
    requires IsArithmeticButton(b)
    ensures Press(s, b, eval) == s[..|s| - 2] + [PressedToken(b)]
  {
    assert Insert(s, b) == s[..|s| - 2] + [PressedToken(b)] by {
      assert "." == ['.'];
      SingleCharNumeric('.');
      InsertAppendsOperation(s, b);
    }
    PressInserts(s, b, eval);
  }

  /** The pops before an operation never leave an operation at the end, provided
      no two operations were adjacent and every symbol after the first was pressed. */
  lemma {:induction false} CollapseEndsWithoutOperation(s: Stream, b: Button)
    requires |s| > 0 && s[0].text != "." && b.kind == Operation
    requires NoAdjacentOperations(s) && PressedTail(s)
    ensures var c := Collapse(s, b); |c| > 0 ==> !IsOperation(c[|c| - 1].text)
  {
    var c := Collapse(s, b);
    var last := Last(s);
    var n := |c|;
    if n > 0 {
      assert c[n - 1] == s[n - 1];
      if n == |s| {
        // nothing popped: the last symbol is a number or `%`
        assert IsNumeric(last.text) || last.text == "%";
        if IsOperation(last.text) {
          OperationsAreNotNumbers(last.text);
          IsOperationIff(last.text);
        }
      } else if n == |s| - 1 {
        // one pop: a `.` after a non-operation, or a non-number that, at index 1
        // or later, is an operation
        if last.text != "." {
          assert |s| >= 2;
          StorableNumeric(last.text);
          StorableOperation(last.text);
          assert IsOperation(s[|s| - 1].text);
        }
      } else {
        // two pops: a `.` after an operation, whose left neighbour is no operation
        assert n == |s| - 2 && IsOperation(s[|s| - 2].text);
      }
    }
  }

  /** After an arithmetic operator press the stream ends with that operator and the
      symbol before it, if any, is not an operation; everything before the new
      operator is a prefix of the old stream. */
  lemma {:induction false} OperatorPress(s: Stream, b: Button, eval: Evaluator)
    requires |s| > 0 && s[0].text != "."
    requires NoAdjacentOperations(s) && PressedTail(s)
    requires IsArithmeticButton(b)
    ensures var r := Press(s, b, eval);
            && |r| >= 1 && r[|r| - 1] == Token(b.value, Pressed)
            && |r| - 1 <= |s| && r[..|r| - 1] == s[..|r| - 1]
            && (|r| >= 2 ==> !IsOperation(r[|r| - 2].text))
  {
    assert b.kind == Operation && b.value != "." && b.value != "%";
    assert b.value != "=" && b.value != "neg" && b.value != "ac";
    PressInserts(s, b, eval);
    InsertAppendsOperation(s, b);
    CollapseEndsWithoutOperation(s, b);
    var r := Press(s, b, eval);
    assert r[..|r| - 1] == Collapse(s, b);
  }

  /** No operation value is a number. */
  lemma {:induction false} OperationsAreNotNumbers(v: string)
    requires IsOperation(v)
    ensures !IsNumeric(v)
  {
    IsOperationIff(v);
    assert v == [v[0]];
    var c := v[0];
    assert c == '/' || c == '*' || c == '-' || c == '+' || c == '=';
    SingleCharNumeric(c);
  }

  /** `=` hands the evaluator the joined text without a trailing `.` symbol; only a
      text that is a single operation value loses its last character. */
  lemma {:induction false} EqualTrimsOnlyLoneOperation(s: Stream)
    requires |s| > 0
    ensures |Concat(DotTrimmed(s))| != 1 ==> EqualText(s) == Concat(DotTrimmed(s))
    ensures |Concat(DotTrimmed(s))| == 1 && IsOperation(Concat(DotTrimmed(s))) ==> EqualText(s) == ""
  {
    IsOperationIff(Concat(DotTrimmed(s)));
  }

  /** `=` and negate replace the stream by the wrapped outcome of evaluating their text. */
  lemma {:induction false} EvaluationPresses(s: Stream, eval: Evaluator)
    requires |s| > 0
    ensures Press(s, Equal, eval) == Wrap(eval(EqualText(s)))
    ensures Press(s, Negate, eval) == Wrap(eval(Concat(s) + "* -1"))
  {
    assert Equal.value == "=";
    assert Negate.value == "neg" && Negate.value != "=";
  }

  /** `=` on a one-symbol stream re-evaluates that symbol's text, unless it is `.` or an operation. */
  lemma {:induction false} EqualOnSingleToken(t: Token, eval: Evaluator)
    requires t.text != "." && !IsOperation(t.text)
    ensures Press([t], Equal, eval) == Wrap(eval(t.text))
  {
    ConcatSingle(t);
    EvaluationPresses([t], eval);
  }
  /** On an empty stream only `.`, negate and all-clear of the table read no missing symbol. */
  lemma {:induction false} EmptyStreamPresses(b: Button)
    requires b in Table
    ensures CanPress([], b) <==> b == Decimal || b == Negate || b == Clear
  {
    TableButtons(b);
  }

  /** `.` on an empty stream passes every guard and is the whole result. */
  lemma {:induction false} DecimalOnEmpty(eval: Evaluator)
    ensures CanPress([], Decimal)
    ensures Press([], Decimal, eval) == [Token(".", Pressed)]
  {
    assert Decimal.value == [Decimal.value[0]] && Decimal.value[0] == '.';
    assert Concat([]) == [];
    PressInserts([], Decimal, eval);
  }

  /** Whatever the stream, a press adds at most one symbol. `=`, negate and all-clear
      leave a single symbol that was not pressed. Any other press keeps every symbol of
      its result but the last from the old stream, and removes at most two symbols
      unless it starts afresh with the pressed symbol alone. */
  lemma {:induction false} PressKeepsPrefix(s: Stream, b: Button, eval: Evaluator)
    requires CanPress(s, b)
    ensures |Press(s, b, eval)| <= |s| + 1
    ensures b.value in {"=", "neg", "ac"} ==> |Press(s, b, eval)| == 1 && Press(s, b, eval)[0].kind != Pressed
    ensures b.value !in {"=", "neg", "ac"} && |Press(s, b, eval)| > 0 ==>
              Press(s, b, eval)[..|Press(s, b, eval)| - 1] == s[..|Press(s, b, eval)| - 1]
    ensures b.value !in {"=", "neg", "ac"} ==>
              Press(s, b, eval) == [PressedToken(b)] || |s| - 2 <= |Press(s, b, eval)|
  {
    if b.value == "=" || b.value == "neg" || b.value == "ac" {
    } else {
      PressInserts(s, b, eval);
      InsertKeepsPrefix(s, b);
    }
  }

  /** The insertion keeps all but the last symbol of its result from the old stream. */
  lemma {:induction false} InsertKeepsPrefix(s: Stream, b: Button)
    requires CanInsert(s, b)
    ensures |Insert(s, b)| <= |s| + 1
    ensures |Insert(s, b)| > 0 ==> Insert(s, b)[..|Insert(s, b)| - 1] == s[..|Insert(s, b)| - 1]
    ensures Insert(s, b) == [PressedToken(b)] || |s| - 2 <= |Insert(s, b)|
  {
    StreamShapeKeepsPrefix(s, Insert(s, b), PressedToken(b));
  }

  /** Each result shape of an insertion keeps the old stream up to its last symbol. */
  lemma {:induction false} StreamShapeKeepsPrefix(s: Stream, r: Stream, t: Token)
    requires || r == s || r == [t]
             || (exists k :: 0 <= k <= 2 && k <= |s| && r == DropLast(s, k) + [t])
             || (exists k :: 0 <= k <= 2 && k <= |s| && r == DropLast(s, k))
    ensures |r| <= |s| + 1
    ensures |r| > 0 ==> r[..|r| - 1] == s[..|r| - 1]
    ensures r == [t] || |s| - 2 <= |r|
  {
    if r != s && r != [t] {
      var k :| 0 <= k <= 2 && k <= |s| && (r == DropLast(s, k) + [t] || r == DropLast(s, k));
      if r == DropLast(s, k) + [t] {
        assert r[..|r| - 1] == DropLast(s, k);
      } else if |r| > 0 {
        assert r[..|r| - 1] == s[..|r| - 1];
      }
    }
  }

  /** After `=`, a digit starts afresh exactly when the evaluation succeeded: an answer
      is replaced, while the `ERR` of a failure is kept and the digit appended to it. */
  lemma {:induction false} EqualThenDigit(s: Stream, d: Button, eval: Evaluator)
    requires |s| > 0 && IsDigitButton(d)
    ensures CanPress(Press(s, Equal, eval), d)
    ensures Press(Press(s, Equal, eval), d, eval) == [PressedToken(d)] <==> eval(EqualText(s)).Some?
  {
    var w := Press(s, Equal, eval);
    assert w == Wrap(eval(EqualText(s))) by {
      assert Equal.value == "=";
    }
    DigitThenWrap(eval(EqualText(s)), d, eval);
  }

  /** After negate, a digit starts afresh exactly when the evaluation succeeded. */
  lemma {:induction false} NegateThenDigit(s: Stream, d: Button, eval: Evaluator)
    requires IsDigitButton(d)
    ensures CanPress(Press(s, Negate, eval), d)
    ensures Press(Press(s, Negate, eval), d, eval) == [PressedToken(d)] <==> eval(NegateText(s)).Some?
  {
    var w := Press(s, Negate, eval);
    assert w == Wrap(eval(NegateText(s))) by {
      assert Negate.value == "neg" && Negate.value != "=";
    }
    DigitThenWrap(eval(NegateText(s)), d, eval);
  }

  /** A digit after a wrapped outcome replaces it exactly when the outcome is an answer. */
  lemma {:induction false} DigitThenWrap(outcome: Option<string>, d: Button, eval: Evaluator)
    requires IsDigitButton(d)
    ensures CanPress(Wrap(outcome), d)
    ensures Press(Wrap(outcome), d, eval) == [PressedToken(d)] <==> outcome.Some?
  {
    var w := Wrap(outcome);
    DigitButtonNumeric(d);
    assert d.value != "=" && d.value != "neg" && d.value != "ac" && d.value != "." && d.value != "%" by {
      assert |d.value| == 1 && '0' <= d.value[0] <= '9';
    }
    if outcome.None? {
      assert Insert(w, d) == w + [PressedToken(d)] by {
        InsertAppendsValue(w, d);
      }
      PressInserts(w, d, eval);
    } else {
      PressInserts(w, d, eval);
    }
  }

  /** After all-clear, whatever came before, a digit replaces the reset `0`. */
  lemma {:induction false} ClearThenDigit(s: Stream, d: Button, eval: Evaluator)
    requires IsDigitButton(d)
    ensures Press(s, Clear, eval) == DefaultDisplay
    ensures Press(Press(s, Clear, eval), d, eval) == [PressedToken(d)]
  {
    assert Clear.value == "ac" && Clear.value != "=" && Clear.value != "neg";
    DigitThenWrap(Some("0"), d, eval);
  }
}
