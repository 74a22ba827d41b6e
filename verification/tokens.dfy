/** Symbols on the display, the text they spell, and the numeric run at its end. */
module Tokens {

  /** Where a symbol came from: an evaluation result (or the initial zero),
      a button press, or a failed evaluation. */
  datatype Kind = Answer | Pressed | Error

  /** A displayed symbol. Its provenance back-reference is not kept: no decision reads it. */
  datatype Token = Token(text: string, kind: Kind)

  type Stream = seq<Token>

  /** The canonical reset state: a single answer "0". */
  const DefaultValue := Token("0", Answer)
  const DefaultDisplay: Stream := [DefaultValue]

  /** The texts of the symbols joined in order, as `map(item => item.value).join("")` builds them. */
  function Concat(s: Stream): string
  {
    if |s| == 0 then "" else Concat(s[..|s| - 1]) + s[|s| - 1].text
  }

  /** Dropping trailing symbols leaves a prefix of the joined text. */
  lemma {:induction false} ConcatPrefix(s: Stream, k: nat)
    requires k <= |s|
    ensures |Concat(s[..k])| <= |Concat(s)|
    ensures Concat(s[..k]) == Concat(s)[..|Concat(s[..k])|]
    decreases |s|
  {
    if k < |s| {
      assert s[..|s| - 1][..k] == s[..k];
      ConcatPrefix(s[..|s| - 1], k);
      assert Concat(s) == Concat(s[..|s| - 1]) + s[|s| - 1].text;
    } else {
      assert s[..k] == s;
    }
  }

  /** The joined text of a one-symbol stream is that symbol's text. */
  lemma {:induction false} ConcatSingle(t: Token)
    ensures Concat([t]) == t.text
  {
    assert [t][..0] == [];
  }

  /** The joined text of a stream with one more symbol. */
  lemma {:induction false} ConcatAppend(s: Stream, t: Token)
    ensures Concat(s + [t]) == Concat(s) + t.text
  {
    assert (s + [t])[..|s|] == s;
  }

  /** A character at which `split(/[*+\/-]+|[A-Za-z]+/)` cuts. */
  predicate IsSeparator(c: char) {
    c == '*' || c == '+' || c == '/' || c == '-' || 'A' <= c <= 'Z' || 'a' <= c <= 'z'
  }

  /** The last part of the split: the longest suffix of `t` free of separators. */
  function TrailingRun(t: string): (r: string)
    ensures |r| <= |t| && r == t[|t| - |r|..]
    ensures forall i :: 0 <= i < |r| ==> !IsSeparator(r[i])
    ensures |r| < |t| ==> IsSeparator(t[|t| - |r| - 1])
  {
    if |t| == 0 || IsSeparator(t[|t| - 1]) then ""
    else TrailingRun(t[..|t| - 1]) + [t[|t| - 1]]
  }

  /** The trailing run grows by a character that is not a separator. */
  lemma {:induction false} TrailingRunAppend(t: string, c: char)
    requires !IsSeparator(c)
    ensures TrailingRun(t + [c]) == TrailingRun(t) + [c]
  {
    assert (t + [c])[..|t|] == t;
  }

  /** Appending `.` to a text adds one `.` to its trailing run. */
  lemma {:induction false} TrailingRunDot(t: string)
    ensures CountChar(TrailingRun(t + "."), '.') == CountChar(TrailingRun(t), '.') + 1
  {
    TrailingRunAppend(t, '.');
    var run := TrailingRun(t + ".");
    assert run[..|run| - 1] == TrailingRun(t);
  }

  /** A maximal separator-free suffix is the trailing run, so the run is determined by the characterisation. */
  lemma {:induction false} TrailingRunUnique(t: string, r: string)
    requires |r| <= |t| && r == t[|t| - |r|..]
    requires forall i :: 0 <= i < |r| ==> !IsSeparator(r[i])
    requires |r| < |t| ==> IsSeparator(t[|t| - |r| - 1])
    ensures TrailingRun(t) == r
  {
    var q := TrailingRun(t);
    if |q| < |r| {
      assert false;
    } else if |r| < |q| {
      assert false;
    }
  }

  /** `String.prototype.indexOf` for one character: the first position of `c` in `t`, or -1. */
  function IndexOf(t: string, c: char): (r: int)
    ensures -1 <= r < |t|
    ensures r >= 0 ==> t[r] == c
    ensures forall j :: 0 <= j < |t| && (r == -1 || j < r) ==> t[j] != c
  {
    if |t| == 0 then -1
    else if t[0] == c then 0
    else
      var rest := IndexOf(t[1..], c);
      if rest == -1 then -1 else rest + 1
  }

  /** The number of occurrences of `c` in `t`. */
  function CountChar(t: string, c: char): (n: nat)
    ensures n <= |t|
    ensures n == 0 <==> forall j :: 0 <= j < |t| ==> t[j] != c
  {
    if |t| == 0 then 0
    else CountChar(t[..|t| - 1], c) + (if t[|t| - 1] == c then 1 else 0)
  }

  /** `indexOf` finds nothing exactly when there is nothing to count. */
  lemma {:induction false} IndexOfCountChar(t: string, c: char)
    ensures IndexOf(t, c) == -1 <==> CountChar(t, c) == 0
  {
  }

  /** A suffix of a text without `c` has no `c`. */
  lemma {:induction false} NoCharInSuffix(t: string, r: string, c: char)
    requires CountChar(t, c) == 0 && |r| <= |t| && r == t[|t| - |r|..]
    ensures CountChar(r, c) == 0
  {
    forall j | 0 <= j < |r|
      ensures r[j] != c
    {
      assert r[j] == t[|t| - |r| + j];
    }
  }

  /** Every run of `t` (maximal separator-free segment) holds at most one `.`. */
  predicate OneDotPerRun(t: string) {
    |t| == 0 || (OneDotPerRun(t[..|t| - 1]) && (t[|t| - 1] == '.' ==> CountChar(TrailingRun(t[..|t| - 1]), '.') == 0))
  }

  /** The property holds of every prefix. */
  lemma {:induction false} OneDotPerRunPrefix(t: string, k: nat)
    requires k <= |t| && OneDotPerRun(t)
    ensures OneDotPerRun(t[..k])
    decreases |t|
  {
    if k < |t| {
      assert t[..|t| - 1][..k] == t[..k];
      OneDotPerRunPrefix(t[..|t| - 1], k);
    } else {
      assert t[..k] == t;
    }
  }

  /** The trailing run of a text satisfying the property holds at most one `.`. */
  lemma {:induction false} TrailingRunAtMostOneDot(t: string)
    requires OneDotPerRun(t)
    ensures CountChar(TrailingRun(t), '.') <= 1
    decreases |t|
  {
    if |t| > 0 && !IsSeparator(t[|t| - 1]) {
      var p := t[..|t| - 1];
      TrailingRunAtMostOneDot(p);
      var run := TrailingRun(t);
      assert run == TrailingRun(p) + [t[|t| - 1]];
      assert run[..|run| - 1] == TrailingRun(p);
    }
  }
}
