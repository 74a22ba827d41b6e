/**
 * The expression-state engine of the calculator component: how a button press
 * turns the current symbol stream into the next one, and how `=` and negate
 * hand the stream to the evaluator and wrap its outcome.
 *
 * The arithmetic evaluator is foreign; it is a parameter `eval` that maps the
 * text to solve to `Some(result text)` or to `None` when evaluating (or
 * formatting its result) throws.
 */
module Calculator {
  import opened Wrappers
  import opened JsNumber
  import opened Buttons
  import opened Tokens

  type Evaluator = string -> Option<string>

  function Last(s: Stream): Token
    requires |s| > 0
  {
    s[|s| - 1]
  }

  /** `Array.prototype.pop` with its result ignored: an empty array stays empty. */
  function Pop(s: Stream): Stream
  {
    if |s| == 0 then s else s[..|s| - 1]
  }

  /** The symbol a press of `b` adds to the stream. */
  function PressedToken(b: Button): Token {
    Token(b.value, Pressed)
  }

  /** An insertion that does not read a property of a missing symbol. On an empty
      stream every guard short-circuits only for a `.` or another non-operation,
      non-`%` button that is not of value type; otherwise an operation pressed after
      a trailing `.` also reads the symbol before it. */
  predicate CanInsert(s: Stream, b: Button) {
    if |s| == 0 then b.kind != Operation && b.value != "%" && (b.kind == Value ==> b.value == ".")
    else b.kind == Operation && Last(s).text == "." ==> |s| >= 2
  }

  /** A press that does not read a property of a missing symbol: `=` needs a last
      symbol, negate and all-clear need nothing, and the rest is the insertion's demand. */
  predicate CanPress(s: Stream, b: Button) {
    if b.value == "=" then |s| > 0
    else if b.value == "neg" || b.value == "ac" then true
    else CanInsert(s, b)
  }

  /** Whether pressing `b` after `s` starts a fresh stream instead of appending. */
  predicate StartsFresh(s: Stream, b: Button)
    requires |s| > 0
  {
    b.kind == Value && b.value != "." && b.value != "%" && Last(s).kind == Answer
  }

  /** `s` without its last `k` symbols. */
  function DropLast(s: Stream, k: nat): (r: Stream)
    requires k <= |s|
    ensures |r| == |s| - k
    ensures forall i :: 0 <= i < |r| ==> r[i] == s[i]
  {
    s[..|s| - k]
  }

  /** The two in-place pops before an operation is appended: a trailing `.` after
      an operation goes first, then the last symbol read before any pop (so still the
      `.` in that case) is popped when it is neither a number nor `%`. */
  function Collapse(s: Stream, b: Button): (r: Stream)
    requires |s| > 0
    requires b.kind == Operation && Last(s).text == "." ==> |s| >= 2
    ensures |s| - 2 <= |r| <= |s| && r == DropLast(s, |s| - |r|)
    ensures b.kind != Operation ==> r == s
  {
    var last := Last(s);
    var s1 := if b.kind == Operation && last.text == "." && IsOperation(s[|s| - 2].text) then Pop(s) else s;
    if b.kind == Operation && !IsNumeric(last.text) && last.text != "%" then Pop(s1) else s1
  }

  /** The insertion logic of a non-dispatched press. A rejected press yields the
      stream as the in-place pops left it; otherwise at most two trailing symbols
      are popped and the new symbol appended, or the stream starts afresh; on an
      empty stream the new symbol is all there is. */
  function Insert(s: Stream, b: Button): (r: Stream)
    requires CanInsert(s, b)
    ensures || r == s
            || (|s| > 0 && StartsFresh(s, b) && r == [PressedToken(b)])
            || (exists k :: 0 <= k <= 2 && k <= |s| && r == DropLast(s, k) + [PressedToken(b)])
            || (b.kind == Operation && b.value == "%" && exists k :: 0 <= k <= 2 && k <= |s| && r == DropLast(s, k))
    ensures b.kind != Operation ==> r == s || r == [PressedToken(b)] || r == s + [PressedToken(b)]
  {
    if b.value == "." && IndexOf(TrailingRun(Concat(s)), '.') != -1 then s
    else if |s| == 0 then
      assert [PressedToken(b)] == DropLast(s, 0) + [PressedToken(b)];
      [PressedToken(b)]
    else
      var popped := Collapse(s, b);
      var k := |s| - |popped|;
      if b.value == "%" && !IsNumeric(Last(s).text) then
        assert popped == DropLast(s, k);
        popped
      else if StartsFresh(s, b) then [PressedToken(b)]
      else
        assert popped + [PressedToken(b)] == DropLast(s, k) + [PressedToken(b)];
        popped + [PressedToken(b)]
  }

  /** Wraps the evaluator's outcome as a one-symbol stream. */
  function Wrap(outcome: Option<string>): (r: Stream)
    ensures |r| == 1
    ensures r[0].kind != Pressed
    ensures r[0].kind == Answer <==> outcome.Some?
    ensures outcome.Some? ==> r[0].text == outcome.value
    ensures outcome.None? ==> r[0] == Token("ERR", Error)
  {
    match outcome
    case Some(v) => [Token(v, Answer)]
    case None => [Token("ERR", Error)]
  }

  /** The stream `=` joins: without its last symbol when that is a `.`. */
  function DotTrimmed(s: Stream): Stream
    requires |s| > 0
  {
    if Last(s).text == "." then Pop(s) else s
  }

  /** The text `=` hands to the evaluator: the joined stream without a trailing `.`
      symbol, emptied when that whole text is an operation value. */
  function EqualText(s: Stream): (r: string)
    requires |s| > 0
    ensures |r| <= |Concat(s)| && r == Concat(s)[..|r|]
    ensures |Concat(s)| - |r| <= 2
    ensures IsOperation(Concat(DotTrimmed(s))) ==> r == ""
    ensures !IsOperation(Concat(DotTrimmed(s))) ==> r == Concat(DotTrimmed(s))
  {
    var trimmed := DotTrimmed(s);
    ConcatPrefix(s, |trimmed|);
    assert trimmed == s[..|trimmed|];
    var solve := Concat(trimmed);
    assert Last(s).text == "." ==> Concat(s) == solve + "." by {
      if Last(s).text == "." {
        assert s == trimmed + [Last(s)];
        ConcatAppend(trimmed, Last(s));
      }
    }
    if IsOperation(solve) then
      IsOperationIff(solve);
      solve[..|solve| - 1]
    else solve
  }

  /** `=`: evaluate the trimmed text and replace the stream by its outcome. */
  function EvaluateEqual(s: Stream, eval: Evaluator): (r: Stream)
    requires |s| > 0
    ensures |r| == 1
    ensures eval(EqualText(s)).Some? ==> r == [Token(eval(EqualText(s)).value, Answer)]
    ensures eval(EqualText(s)).None? ==> r == [Token("ERR", Error)]
  {
    Wrap(eval(EqualText(s)))
  }

  /** The text negate hands to the evaluator: the whole untrimmed stream times -1. */
  function NegateText(s: Stream): string
  {
    Concat(s) + "* -1"
  }

  /** Negate: evaluate the stream times -1 and replace the stream by its outcome. */
  function EvaluateNegate(s: Stream, eval: Evaluator): (r: Stream)
    ensures |r| == 1
    ensures eval(NegateText(s)).Some? ==> r == [Token(eval(NegateText(s)).value, Answer)]
    ensures eval(NegateText(s)).None? ==> r == [Token("ERR", Error)]
  {
    Wrap(eval(NegateText(s)))
  }

  /** All-clear: back to the canonical reset stream. */
  function Reset(): (r: Stream)
    ensures r == [Token("0", Answer)]
  {
    DefaultDisplay
  }

  /** A button press: `=`, negate and all-clear are dispatched before any insertion logic. */
  function Press(s: Stream, b: Button, eval: Evaluator): (r: Stream)
    requires CanPress(s, b)
    ensures b.value == "=" ==> r == EvaluateEqual(s, eval)
    ensures b.value == "neg" ==> r == EvaluateNegate(s, eval)
    ensures b.value == "ac" ==> r == [Token("0", Answer)]
    ensures b.value !in {"=", "neg", "ac"} ==> r == Insert(s, b)
  {
    if b.value == "=" then EvaluateEqual(s, eval)
    else if b.value == "neg" then EvaluateNegate(s, eval)
    else if b.value == "ac" then Reset()
    else Insert(s, b)
  }
}
