/** The evaluation step of the calculator (`calculate` in App.js): both
    operand texts have their first comma read as the decimal point, the
    operator selects the arithmetic, a non-integral result whose text has
    more than six characters after its decimal point is replaced by its
    `toFixed(6)` text (an exponent form such as 1.5e-7 keeps its text, since
    only "5e-7" follows the point), and the decimal point of the result text
    is written back as a comma.

    The floating-point arithmetic is not modelled. It is the parameter
    `arith`, which gives, for an operation and the two normalised operand
    texts, the three things `calculate` observes of the resulting number.
    The rounding step is modelled exactly on these observations, including
    its failure: for a non-integral number whose text has no decimal point
    (NaN, the infinities, and exponent forms such as 1e-7),
    `text.split('.')[1]` is `undefined` and reading its `length` throws, so
    `calculate` stores nothing. */
module Evaluator {
  import opened Wrappers
  import Text

  /** The six arithmetic branches of `calculate`. */
  datatype Operation = Percent | Power | Divide | Multiply | Add | Subtract

  /** A JavaScript number as `calculate` observes it: `text` is what
      `toString()` gives, `whole` is whether `result % 1 === 0` (false for
      NaN and the infinities), and `fixed` is what `toFixed(6)` gives. */
  datatype Number = Number(text: string, whole: bool, fixed: string)

  /** The value `result` starts with. */
  const Zero := Number("0", true, "0.000000")

  /** The number an operation yields on two normalised operand texts; the
      percent operation ignores its second operand in the source, which
      this abstraction does not enforce. */
  type Arithmetic = (Operation, string, string) -> Number

  /** The operator string that selects each operation. */
  function Symbol(op: Operation): string
  {
    match op
    case Percent => "%"
    case Power => "^"
    case Divide => "/"
    case Multiply => "*"
    case Add => "+"
    case Subtract => "-"
  }

  /** The branch of the arithmetic switch an operator string selects, or
      `None` when it matches no case (the switch has no default). */
  function OperationOf(o: string): (r: Option<Operation>)
    ensures r.Some? <==> o in {"%", "^", "/", "*", "+", "-"}
  {
    if o == "%" then Some(Percent)
    else if o == "^" then Some(Power)
    else if o == "/" then Some(Divide)
    else if o == "*" then Some(Multiply)
    else if o == "+" then Some(Add)
    else if o == "-" then Some(Subtract)
    else None
  }

  /** `OperationOf` and `Symbol` are inverse: each operation is selected by
      exactly its own symbol. */
  lemma OperationOfSymbol(o: string, op: Operation)
    ensures OperationOf(o) == Some(op) <==> o == Symbol(op)
  {
  }

  /** Input normalisation: the first comma becomes a decimal point. */
  function Normalize(s: string): string
  {
    Text.ReplaceFirst(s, ',', '.')
  }

  /** Output formatting: the first decimal point becomes a comma. */
  function Format(s: string): string
  {
    Text.ReplaceFirst(s, '.', ',')
  }

  /** A number text without a comma (every JavaScript number text) is
      read back unchanged after formatting: the result of one evaluation
      can be an operand of the next. */
  lemma FormatThenNormalize(t: string)
    requires ',' !in t
    ensures Normalize(Format(t)) == t
  {
    Text.ReplaceFirstRoundTrip(t, '.', ',');
  }

  /** The rounding step: the text of the result after it, or `None` when
      the step throws (a non-integral number whose text has no decimal
      point, so that there is no fractional part to measure). */
  function Round(n: Number): Option<string>
  {
    if n.whole then Some(n.text)
    else match Text.SecondField(n.text, '.')
      case None => None
      case Some(digits) => if |digits| > 6 then Some(n.fixed) else Some(n.text)
  }

  /** The rounding step throws exactly for non-integral numbers whose text
      has no decimal point. */
  lemma RoundThrows(n: Number)
    ensures Round(n).None? <==> !n.whole && '.' !in n.text
  {
  }

  /** NaN makes the rounding step throw: `NaN % 1` is NaN, not 0, and
      "NaN" has no decimal point. */
  lemma RoundThrowsOnNaN()
    ensures Round(Number("NaN", false, "NaN")) == None
  {
  }

  /** A number text `i.d` with one decimal point keeps its text when `d`
      has at most six characters and is replaced by its `toFixed(6)` text
      when it has more; an integral number always keeps its text. `d` is
      all of the text after the point, an exponent included. */
  lemma RoundFraction(n: Number, i: string, d: string)
    requires n.text == i + "." + d && '.' !in i && '.' !in d
    ensures n.whole || |d| <= 6 ==> Round(n) == Some(n.text)
    ensures !n.whole && |d| > 6 ==> Round(n) == Some(n.fixed)
  {
    Text.SecondFieldOfOne(i, '.', d);
  }

  /** The number `calculate` computes for operator `o` on normalised
      operands `a` and `b`: the initial zero when `o` selects no branch. */
  function NumberOf(arith: Arithmetic, a: string, o: string, b: string): Number
  {
    match OperationOf(o)
    case Some(op) => arith(op, a, b)
    case None => Zero
  }

  /** What `calculate(a, o, b)` stores as the new first operand, or `None`
      when it throws before storing anything. */
  function Evaluate(arith: Arithmetic, a: string, o: string, b: string): Option<string>
  {
    match Round(NumberOf(arith, Normalize(a), o, Normalize(b)))
    case None => None
    case Some(t) => Some(Format(t))
  }

  /** An operator that selects no arithmetic branch (the empty operator,
      in particular) evaluates to "0" whatever the operands are, and never
      throws. */
  lemma EvaluateUnknownOperator(arith: Arithmetic, a: string, o: string, b: string)
    requires o !in {"%", "^", "/", "*", "+", "-"}
    ensures Evaluate(arith, a, o, b) == Some("0")
  {
  }

  /** For a known operator, `calculate` throws exactly when the operation's
      number makes the rounding step throw. Otherwise the stored string is
      the rounded text with its decimal point written as a comma: it has
      the same length, and it reads back to that text. */
  lemma EvaluateKnownOperator(arith: Arithmetic, a: string, op: Operation, b: string)
    ensures var n := arith(op, Normalize(a), Normalize(b));
      Evaluate(arith, a, Symbol(op), b).None? <==> !n.whole && '.' !in n.text
    ensures var t := Round(arith(op, Normalize(a), Normalize(b)));
      t.Some? && ',' !in t.value ==>
        && Evaluate(arith, a, Symbol(op), b).Some?
        && |Evaluate(arith, a, Symbol(op), b).value| == |t.value|
        && Normalize(Evaluate(arith, a, Symbol(op), b).value) == t.value
  {
    OperationOfSymbol(Symbol(op), op);
    RoundThrows(arith(op, Normalize(a), Normalize(b)));
    var t := Round(arith(op, Normalize(a), Normalize(b)));
    if t.Some? && ',' !in t.value {
      FormatThenNormalize(t.value);
    }
  }
}
