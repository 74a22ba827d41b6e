/**
 * The invariant `Valid` holds of the reset stream and survives every press of a
 * table button (given an evaluator that never answers with a lone `.` and keeps
 * one `.` per run), so every sequence of presses from the reset stream is well
 * defined and keeps at most one `.` in every numeric run.
 */
module CalculatorInvariant {
  import opened Wrappers
  import opened JsNumber
  import opened Buttons
  import opened Tokens
  import opened Calculator
  import opened CalculatorProperties

  /** Appending a character keeps one `.` per run unless it is a second `.` in the trailing run. */
  lemma {:induction false} OneDotPerRunAppend(t: string, c: char)
    requires OneDotPerRun(t)
    requires c == '.' ==> CountChar(TrailingRun(t), '.') == 0
    ensures OneDotPerRun(t + [c])
  {
    assert (t + [c])[..|t|] == t;
  }

  /** Dropping trailing symbols keeps the invariant as long as one symbol is left. */
  lemma {:induction false} ValidPrefix(s: Stream, n: nat)
    requires Valid(s) && 0 < n <= |s|
    ensures Valid(s[..n])
  {
    ConcatPrefix(s, n);
    OneDotPerRunPrefix(Concat(s), |Concat(s[..n])|);
  }

  /** A one-symbol stream whose text is not `.` and has one `.` per run is valid. */
  lemma {:induction false} ValidSingle(t: Token)
    requires t.text != "." && OneDotPerRun(t.text)
    ensures Valid([t])
  {
    ConcatSingle(t);
  }

  /** A pressed storable symbol is a one-character text with one `.` per run. */
  lemma {:induction false} StorableOneDot(v: string)
    requires Storable(v)
    ensures |v| == 1 && OneDotPerRun(v)
  {
    assert v[..0] == "";
  }

  /** Appending a pressed storable symbol keeps the invariant when it is no second
      operation in a row, no `%` after a non-number and no second `.` in the trailing run. */
  lemma {:induction false} ValidAppend(s: Stream, t: Token)
    requires Valid(s) && t.kind == Pressed && Storable(t.text)
    requires !(IsOperation(Last(s).text) && IsOperation(t.text))
    requires t.text == "%" ==> IsNumeric(Last(s).text)
    requires t.text == "." ==> CountChar(TrailingRun(Concat(s)), '.') == 0
    ensures Valid(s + [t])
  {
    ConcatAppend(s, t);
    StorableOneDot(t.text);
    var c := t.text[0];
    assert t.text == [c];
    OneDotPerRunAppend(Concat(s), c);
  }

  /** The outcome of `=` or negate is valid when the evaluator's text is not a lone `.`
      and keeps one `.` per run. */
  lemma {:induction false} WrapValid(outcome: Option<string>)
    requires outcome.Some? ==> outcome.value != "." && OneDotPerRun(outcome.value)
    ensures Valid(Wrap(outcome))
  {
    if outcome.None? {
      assert "ERR"[..2] == "ER" && "ER"[..1] == "E" && "E"[..0] == "";
      ValidSingle(Token("ERR", Error));
    } else {
      ValidSingle(Token(outcome.value, Answer));
    }
  }

  /** A value button keeps the invariant. */
  lemma {:induction false} ValueKeepsValid(s: Stream, b: Button)
    requires Valid(s) && b in Table && b.kind == Value
    ensures Valid(Insert(s, b))
  {
    ValueButtons(b);
    InsertedValuesStorable(b);
    var t := PressedToken(b);
    var run := TrailingRun(Concat(s));
    if b.value == "." && IndexOf(run, '.') != -1 {
    } else if b.value == "%" && !IsNumeric(Last(s).text) {
    } else if StartsFresh(s, b) {
      StorableOneDot(b.value);
      ValidSingle(t);
    } else {
      InsertAppendsValue(s, b);
      StorableOperation(b.value);
      IndexOfCountChar(run, '.');
      ValidAppend(s, t);
    }
  }

  /** An operation button other than `=` keeps the invariant. */
  lemma {:induction false} OperationKeepsValid(s: Stream, b: Button)
    requires Valid(s) && b in Table && b.kind == Operation && b.value != "="
    ensures Valid(Insert(s, b))
  {
    var t := PressedToken(b);
    var c := Collapse(s, b);
    assert Insert(s, b) == c + [t] by {
      IsOperationIff(b.value);
      InsertAppendsOperation(s, b);
    }
    assert Storable(t.text) && IsOperation(t.text) && t.text != "." && t.text != "%" by {
      IsOperationIff(b.value);
      InsertedValuesStorable(b);
    }
    if |c| == 0 {
      StorableOneDot(t.text);
      assert c + [t] == [t];
      ValidSingle(t);
    } else {
      assert !IsOperation(c[|c| - 1].text) by {
        CollapseEndsWithoutOperation(s, b);
      }
      assert Valid(c) by {
        assert c == s[..|c|];
        ValidPrefix(s, |c|);
      }
      ValidAppend(c, t);
    }
  }

  /** Every press of a table button on a valid stream is well defined and leaves a valid stream. */
  lemma {:induction false} PressKeepsValid(s: Stream, b: Button, eval: Evaluator)
    requires Valid(s) && b in Table && WellBehaved(eval)
    ensures CanPress(s, b) && Valid(Press(s, b, eval))
  {
    ValidCanPress(s, b);
    if b.value == "=" {
      WrapValid(eval(EqualText(s)));
    } else if b.value == "neg" {
      WrapValid(eval(NegateText(s)));
    } else if b.value == "ac" {
      DefaultDisplayValid();
    } else {
      PressInserts(s, b, eval);
      InsertedValuesStorable(b);
      if b.kind == Value {
        ValueKeepsValid(s, b);
      } else {
        OperationKeepsValid(s, b);
      }
    }
  }

  /** The stream after a sequence of presses, or `None` when a press would read a missing symbol. */
  function PressAll(s: Stream, presses: seq<Button>, eval: Evaluator): (r: Option<Stream>)
    ensures |presses| == 0 ==> r == Some(s)
    decreases |presses|
  {
    if |presses| == 0 then Some(s)
    else if !CanPress(s, presses[0]) then None
    else PressAll(Press(s, presses[0], eval), presses[1..], eval)
  }

  /** One step of a press sequence. */
  lemma {:induction false} PressAllStep(s: Stream, presses: seq<Button>, eval: Evaluator)
    requires |presses| > 0 && CanPress(s, presses[0])
    ensures PressAll(s, presses, eval) == PressAll(Press(s, presses[0], eval), presses[1..], eval)
  {
  }

  /** Any sequence of table presses from a valid stream is well defined and ends valid. */
  lemma {:induction false} PressAllKeepsValid(s: Stream, presses: seq<Button>, eval: Evaluator)
    requires Valid(s) && WellBehaved(eval)
    requires forall i :: 0 <= i < |presses| ==> presses[i] in Table
    ensures PressAll(s, presses, eval).Some? && Valid(PressAll(s, presses, eval).value)
    decreases |presses|
  {
    if |presses| > 0 {
      PressKeepsValid(s, presses[0], eval);
      PressAllKeepsValid(Press(s, presses[0], eval), presses[1..], eval);
    }
  }

  /** From the reset stream, every numeric run of every reachable stream holds at most one `.`,
      the stream is never empty and never starts with `.`. */
  lemma {:induction false} ReachableFromReset(presses: seq<Button>, eval: Evaluator)
    requires WellBehaved(eval)
    requires forall i :: 0 <= i < |presses| ==> presses[i] in Table
    ensures var r := PressAll(DefaultDisplay, presses, eval);
            && r.Some? && |r.value| > 0 && r.value[0].text != "."
            && OneDotPerRun(Concat(r.value)) && CountChar(TrailingRun(Concat(r.value)), '.') <= 1
  {
    DefaultDisplayValid();
    PressAllKeepsValid(DefaultDisplay, presses, eval);
    TrailingRunAtMostOneDot(Concat(PressAll(DefaultDisplay, presses, eval).value));
  }
}
