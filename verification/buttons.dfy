/** The static button table of the calculator and the operator test read from it. */
module Buttons {

  /** The `type` of a button: clear and negate are special, digits, `.` and `%`
      are values, the four arithmetic operators and `=` are operations. */
  datatype ButtonType = Special | Value | Operation

  datatype Button = Button(name: string, value: string, kind: ButtonType)

  const Clear := Button("clear", "ac", Special)
  const Percent := Button("percent", "%", Value)
  const Negate := Button("negate", "neg", Special)
  const Divide := Button("divide", "/", Operation)
  const Seven := Button("seven", "7", Value)
  const Eight := Button("eight", "8", Value)
  const Nine := Button("nine", "9", Value)
  const Multiply := Button("multiply", "*", Operation)
  const Four := Button("four", "4", Value)
  const Five := Button("five", "5", Value)
  const Six := Button("six", "6", Value)
  const Minus := Button("minus", "-", Operation)
  const One := Button("one", "1", Value)
  const Two := Button("two", "2", Value)
  const Three := Button("three", "3", Value)
  const Plus := Button("plus", "+", Operation)
  const Zero := Button("zero", "0", Value)
  const Decimal := Button("decimal", ".", Value)
  const Equal := Button("equal", "=", Operation)

  /** The grid, in display order. */
  const Table: seq<Button> := [
    Clear, Percent, Negate, Divide,
    Seven, Eight, Nine, Multiply,
    Four, Five, Six, Minus,
    One, Two, Three, Plus,
    Zero, Decimal, Equal
  ]

  /** A value counts as an operation when the table's operation-type buttons,
      filtered by that value, are not empty. */
  predicate IsOperation(v: string) {
    exists i :: 0 <= i < |Table| && Table[i].kind == Operation && Table[i].value == v
  }

  /** The operation values are exactly the four arithmetic operators and `=`. */
  lemma {:induction false} IsOperationIff(v: string)
    ensures IsOperation(v) <==> v == "/" || v == "*" || v == "-" || v == "+" || v == "="
  {
    if v == "/" || v == "*" || v == "-" || v == "+" || v == "=" {
      var i := if v == "/" then 3 else if v == "*" then 7 else if v == "-" then 11 else if v == "+" then 15 else 18;
      assert Table[i].kind == Operation && Table[i].value == v;
    }
  }

  /** Every button value that is neither special nor an operation is a single character. */
  lemma {:induction false} ValueButtons(b: Button)
    requires b in Table && b.kind == Value
    ensures b.value in {"0", "1", "2", "3", "4", "5", "6", "7", "8", "9", ".", "%"}
  {
  }

  /** A digit button: a value-type button whose value is one decimal digit. */
  predicate IsDigitButton(b: Button) {
    b.kind == Value && |b.value| == 1 && '0' <= b.value[0] <= '9'
  }

  /** An arithmetic operator button: an operation-type button other than `=`. */
  predicate IsArithmeticButton(b: Button) {
    b.kind == Operation && (b.value == "/" || b.value == "*" || b.value == "-" || b.value == "+")
  }

  /** Every button of the table is all-clear, negate, a digit, `.`, `%`, an arithmetic
      operator or `=`, with the type the table gives it. */
  lemma {:induction false} TableButtons(b: Button)
    requires b in Table
    ensures b.kind == Special <==> b == Clear || b == Negate
    ensures b.kind == Value <==> IsDigitButton(b) || b == Decimal || b == Percent
    ensures b.kind == Operation <==> IsArithmeticButton(b) || b == Equal
  {
  }
}
