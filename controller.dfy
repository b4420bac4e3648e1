/** The key-press state machine of the calculator (`onKeyPress` and
    `getDisplayText` in App.js) as a pure transition function over the four
    state strings. The class in module App performs the same transitions in
    place and is proved against `Step`; the properties of the machine are
    proved here, about `Step` and about `Run`, its extension to key
    sequences. */
module Controller {
  import opened Wrappers
  import Evaluator

  /** The component state: the two operand texts, the pending operator and
      `clearLabel`, which the handler sets but nothing reads (the clear
      button always shows and sends "AC"). */
  datatype State = State(firstValue: string, operator: string, secondValue: string, clearLabel: string)

  /** The state at application start. */
  const Init := State("", "", "", "AC")

  const BackspaceKey := "⌫"

  /** The keys that append themselves to an operand. */
  const OperandKeys: set<string> := {"1", "2", "3", "4", "5", "6", "7", "8", "9", "0", "."}

  /** The keys that store themselves as the pending operator. */
  const OperatorKeys: set<string> := {"^", "/", "*", "+"}

  /** The operators that can be pending. */
  const StoredOperators: set<string> := {"", "^", "/", "*", "+"}

  /** What every key press preserves from the initial state on. */
  ghost predicate Inv(s: State)
  {
    && s.operator in StoredOperators
    && (s.secondValue != "" ==> s.operator != "")
    && s.clearLabel in {"AC", "C"}
  }

  /** The state after `calculate(a, o, b)`: the result becomes the first
      operand and the operator and second operand are emptied; when
      `calculate` throws, none of its setters has run and the state is as
      it was. */
  function Evaluated(arith: Evaluator.Arithmetic, s: State, a: string, o: string, b: string): State
  {
    match Evaluator.Evaluate(arith, a, o, b)
    case None => s
    case Some(r) => s.(firstValue := r, operator := "", secondValue := "")
  }

  /** `slice(0, -1)`: every character but the last; empty stays empty. */
  function DropLast(s: string): (r: string)
    ensures s != [] ==> r + [s[|s| - 1]] == s
    ensures s == [] ==> r == []
  {
    if s == [] then s else s[..|s| - 1]
  }

  /** One key press. A key that no case of the switch names leaves the
      state as it is. */
  function Step(arith: Evaluator.Arithmetic, s: State, key: string): State
  {
    if key == "AC" then
      s.(firstValue := "", operator := "", secondValue := "")
    else if key == BackspaceKey then
      if s.secondValue != "" then s.(secondValue := DropLast(s.secondValue), clearLabel := "AC")
      else if s.operator != "" then s.(operator := "", clearLabel := "AC")
      else s.(firstValue := DropLast(s.firstValue), clearLabel := "AC")
    else if key == "%" then
      Evaluated(arith, s, s.firstValue, key, s.secondValue)
    else if key in OperatorKeys then
      if s.secondValue != "" then Evaluated(arith, s, s.firstValue, s.operator, s.secondValue)
      else s.(operator := key)
    else if key == "-" || key == "=" then
      Evaluated(arith, s, s.firstValue, s.operator, s.secondValue)
    else if key in OperandKeys then
      if s.operator == "" then s.(firstValue := s.firstValue + key, clearLabel := "C")
      else s.(secondValue := s.secondValue + key, clearLabel := "C")
    else
      s
  }

  /** The text on the display: the second operand while one is being
      typed, else the first operand, else "0". */
  function DisplayText(s: State): (r: string)
    ensures r != ""
    ensures s.secondValue != "" ==> r == s.secondValue
    ensures s.secondValue == "" ==> r == (if s.firstValue == "" then "0" else s.firstValue)
  {
    if s.secondValue != "" then s.secondValue
    else if s.firstValue == "" then "0"
    else s.firstValue
  }

  /** The key presses one after another. */
  function Run(arith: Evaluator.Arithmetic, s: State, keys: seq<string>): State
    decreases |keys|
  {
    if keys == [] then s else Run(arith, Step(arith, s, keys[0]), keys[1..])
  }

  /** The keys one after another as one string. */
  function Join(keys: seq<string>): string
  {
    if keys == [] then "" else keys[0] + Join(keys[1..])
  }

  /** The operator `calculate` receives when `key` is pressed in state `s`,
      or `None` when that key press does not evaluate: `%` passes itself,
      `^ / * +` with a second operand and `-` and `=` always pass the stored
      operator. */
  function CalcOperator(s: State, key: string): Option<string>
  {
    if key == "%" then Some("%")
    else if key in OperatorKeys && s.secondValue != "" then Some(s.operator)
    else if key == "-" || key == "=" then Some(s.operator)
    else None
  }

  /** Whether pressing `key` in state `s` makes `calculate` throw. */
  predicate Throws(arith: Evaluator.Arithmetic, s: State, key: string)
  {
    match CalcOperator(s, key)
    case None => false
    case Some(o) => Evaluator.Evaluate(arith, s.firstValue, o, s.secondValue).None?
  }

  // ---------------------------------------------------------------------
  // One key press

  /** `AC` empties both operands and the operator, so the display shows
      "0"; the clear label is left as it was. */
  lemma ClearKey(arith: Evaluator.Arithmetic, s: State)
    ensures Step(arith, s, "AC") == State("", "", "", s.clearLabel)
    ensures DisplayText(Step(arith, s, "AC")) == "0"
  {
  }

  /** Backspace edits the rightmost non-empty field and only that one, and
      resets the clear label to "AC". */
  lemma BackspaceEditsRightmost(arith: Evaluator.Arithmetic, s: State)
    ensures var t := Step(arith, s, BackspaceKey);
      && t.clearLabel == "AC"
      && (s.secondValue != "" ==>
            t.firstValue == s.firstValue && t.operator == s.operator
            && t.secondValue + [s.secondValue[|s.secondValue| - 1]] == s.secondValue)
      && (s.secondValue == "" && s.operator != "" ==>
            t.firstValue == s.firstValue && t.operator == "" && t.secondValue == "")
      && (s.secondValue == "" && s.operator == "" ==>
            t.operator == "" && t.secondValue == ""
            && (s.firstValue == "" ==> t.firstValue == "")
            && (s.firstValue != "" ==> t.firstValue + [s.firstValue[|s.firstValue| - 1]] == s.firstValue))
  {
  }

  /** A digit or `.` appends itself to the first operand while no operator
      is pending and to the second operand otherwise; the other operand and
      the operator are unchanged and the clear label becomes "C". */
  lemma OperandKeyAppends(arith: Evaluator.Arithmetic, s: State, key: string)
    requires key in OperandKeys
    ensures var t := Step(arith, s, key);
      && t.clearLabel == "C" && t.operator == s.operator
      && (s.operator == "" ==> t.firstValue == s.firstValue + key && t.secondValue == s.secondValue)
      && (s.operator != "" ==> t.secondValue == s.secondValue + key && t.firstValue == s.firstValue)
  {
    OperandKeyIsOneChar(key);
    assert key !in OperatorKeys && key !in {"AC", BackspaceKey, "%", "-", "="};
  }

  /** `^ / * +` store themselves as the operator when no second operand has
      been typed; otherwise they evaluate with the operator stored before,
      and the pressed key is not kept. */
  lemma OperatorKeyStoresOrEvaluates(arith: Evaluator.Arithmetic, s: State, key: string)
    requires key in OperatorKeys
    ensures s.secondValue == "" ==> Step(arith, s, key) == s.(operator := key)
    ensures s.secondValue != "" ==>
      var e := Evaluator.Evaluate(arith, s.firstValue, s.operator, s.secondValue);
      && (e.Some? ==> Step(arith, s, key) == s.(firstValue := e.value, operator := "", secondValue := ""))
      && (e.None? ==> Step(arith, s, key) == s)
  {
  }

  /** `-`, `=` and `%` always evaluate, `-` and `=` with the stored
      operator and `%` with itself, and none of them is ever stored as the
      operator: either the result replaces the state's operands and
      operator, or `calculate` throws and the state is kept. */
  lemma EvaluatingKeys(arith: Evaluator.Arithmetic, s: State, key: string)
    requires key in {"-", "=", "%"}
    ensures var e := Evaluator.Evaluate(arith, s.firstValue, if key == "%" then "%" else s.operator, s.secondValue);
      && (e.Some? ==> Step(arith, s, key) == s.(firstValue := e.value, operator := "", secondValue := ""))
      && (e.None? ==> Step(arith, s, key) == s)
    ensures Step(arith, s, key).operator in {"", s.operator}
  {
  }

  /** With no operator pending, `=` and `-` evaluate the empty operator,
      which selects no arithmetic: the first operand becomes "0". */
  lemma EqualsWithoutOperator(arith: Evaluator.Arithmetic, s: State, key: string)
    requires key == "=" || key == "-"
    requires s.operator == ""
    ensures Step(arith, s, key) == s.(firstValue := "0", secondValue := "")
    ensures DisplayText(Step(arith, s, key)) == "0"
  {
    Evaluator.EvaluateUnknownOperator(arith, s.firstValue, s.operator, s.secondValue);
  }

  /** A key press evaluates exactly when `CalcOperator` says so: then the
      new state is the evaluation of the two operands under that operator,
      which empties the operator and the second operand unless `calculate`
      throws, in which case nothing changes; otherwise the first operand is
      kept, cleared, shortened by one character or extended by the key, and
      never replaced by a result. */
  lemma EvaluationFollowsCalcOperator(arith: Evaluator.Arithmetic, s: State, key: string)
    ensures CalcOperator(s, key).Some? ==>
      Step(arith, s, key) == Evaluated(arith, s, s.firstValue, CalcOperator(s, key).value, s.secondValue)
    ensures CalcOperator(s, key).Some? && !Throws(arith, s, key) ==>
      Step(arith, s, key).operator == "" && Step(arith, s, key).secondValue == ""
    ensures Throws(arith, s, key) ==> Step(arith, s, key) == s
    ensures CalcOperator(s, key).None? ==>
      var f := Step(arith, s, key).firstValue;
      f == s.firstValue || f == "" || f == DropLast(s.firstValue) || f == s.firstValue + key
  {
    if key == "AC" || key == BackspaceKey {
    } else if key == "%" {
    } else if key in OperatorKeys {
      OperatorKeyStoresOrEvaluates(arith, s, key);
    } else if key == "-" || key == "=" {
    } else if key in OperandKeys {
      OperandKeyAppends(arith, s, key);
    } else {
      UnmatchedKey(arith, s, key);
    }
  }

  /** A key that no case of the switch names changes nothing. */
  lemma UnmatchedKey(arith: Evaluator.Arithmetic, s: State, key: string)
    requires key !in {"AC", BackspaceKey, "%", "-", "="}
    requires key !in OperatorKeys && key !in OperandKeys
    ensures Step(arith, s, key) == s
  {
  }

  /** An operator can be pending while the first operand is still empty:
      pressing `+` at start stores it. */
  lemma OperatorBeforeOperand(arith: Evaluator.Arithmetic)
    ensures Run(arith, Init, ["+"]) == State("", "+", "", "AC")
    ensures Run(arith, Init, ["+", "7"]) == State("", "+", "7", "C")
  {
    assert ["+", "7"][1..] == ["7"];
  }

  /** `5 + =` adds NaN (the empty second operand parses as NaN), so
      `calculate` throws: the operator stays pending and "5" stays on the
      display. */
  lemma IncompleteSumKeepsState(arith: Evaluator.Arithmetic)
    requires arith(Evaluator.Add, "5", "") == Evaluator.Number("NaN", false, "NaN")
    ensures Throws(arith, State("5", "+", "", "C"), "=")
    ensures Run(arith, Init, ["5", "+", "="]) == State("5", "+", "", "C")
    ensures DisplayText(Run(arith, Init, ["5", "+", "="])) == "5"
  {
    var s1 := Step(arith, Init, "5");
    assert s1 == State("5", "", "", "C");
    var s2 := Step(arith, s1, "+");
    assert s2 == State("5", "+", "", "C");
    assert Evaluator.Normalize("5") == "5" && Evaluator.Normalize("") == "";
    assert Run(arith, Init, ["5", "+", "="]) == Run(arith, s1, ["+", "="]);
    assert Run(arith, s1, ["+", "="]) == Run(arith, s2, ["="]);
  }

  /** `%` at start divides NaN (the empty first operand) by 100, so
      `calculate` throws and the initial state is kept. */
  lemma PercentAtStartKeepsState(arith: Evaluator.Arithmetic)
    requires arith(Evaluator.Percent, "", "") == Evaluator.Number("NaN", false, "NaN")
    ensures Throws(arith, Init, "%")
    ensures Step(arith, Init, "%") == Init
  {
    assert Evaluator.Normalize("") == "";
  }

  // ---------------------------------------------------------------------
  // Invariants of every key sequence

  /** Every key press preserves `Inv`. */
  lemma StepPreservesInv(arith: Evaluator.Arithmetic, s: State, key: string)
    requires Inv(s)
    ensures Inv(Step(arith, s, key))
  {
  }

  /** Every key sequence preserves `Inv`. */
  lemma {:induction false} RunPreservesInv(arith: Evaluator.Arithmetic, s: State, keys: seq<string>)
    requires Inv(s)
    ensures Inv(Run(arith, s, keys))
    decreases |keys|
  {
    if keys != [] {
      StepPreservesInv(arith, s, keys[0]);
      RunPreservesInv(arith, Step(arith, s, keys[0]), keys[1..]);
    }
  }

  /** From the initial state the operator is only ever empty or one of
      `^ / * +`, and a second operand is only ever typed after an
      operator. */
  lemma ReachableInv(arith: Evaluator.Arithmetic, keys: seq<string>)
    ensures var s := Run(arith, Init, keys);
      s.operator in StoredOperators && (s.secondValue != "" ==> s.operator != "")
  {
    RunPreservesInv(arith, Init, keys);
  }

  /** The subtraction branch of the arithmetic is never selected by key
      input: whatever keys were pressed, the next evaluation is under `%`,
      under `^ / * +`, or under the empty operator. */
  lemma SubtractionUnreachable(arith: Evaluator.Arithmetic, keys: seq<string>, key: string)
    ensures var o := CalcOperator(Run(arith, Init, keys), key);
      o.Some? ==> o.value in {"%", "", "^", "/", "*", "+"}
                  && Evaluator.OperationOf(o.value) != Some(Evaluator.Subtract)
  {
    ReachableInv(arith, keys);
  }

  /** Typing digits and `.` builds up one operand: the first while no
      operator is pending, else the second. */
  lemma {:induction false} TypingOperand(arith: Evaluator.Arithmetic, s: State, keys: seq<string>)
    requires keys != []
    requires forall i :: 0 <= i < |keys| ==> keys[i] in OperandKeys
    ensures s.operator == "" ==>
      Run(arith, s, keys) == s.(firstValue := s.firstValue + Join(keys), clearLabel := "C")
    ensures s.operator != "" ==>
      Run(arith, s, keys) == s.(secondValue := s.secondValue + Join(keys), clearLabel := "C")
    decreases |keys|
  {
    var k, rest := keys[0], keys[1..];
    var t := Step(arith, s, k);
    OperandKeyAppends(arith, s, k);
    assert Run(arith, s, keys) == Run(arith, t, rest);
    assert Join(keys) == k + Join(rest);
    if rest == [] {
      assert Join(keys) == k;
    } else {
      TypingOperand(arith, t, rest);
      if s.operator == "" {
        AppendAssoc(s.firstValue, k, Join(rest));
      } else {
        AppendAssoc(s.secondValue, k, Join(rest));
      }
    }
  }

  /** Proof helper for `OperandKeyAppends` and `TypedDigitsDisplayed`: an
      operand key is a single character. */
  lemma OperandKeyIsOneChar(key: string)
    requires key in OperandKeys
    ensures |key| == 1
  {
  }

  /** Proof helper for `TypingOperand`: string concatenation regrouped,
      stated once so that proof stays cheap. */
  lemma AppendAssoc(a: string, b: string, c: string)
    ensures (a + b) + c == a + (b + c)
  {
  }

  /** Digits and `.` typed from the start are shown exactly as typed. */
  lemma TypedDigitsDisplayed(arith: Evaluator.Arithmetic, keys: seq<string>)
    requires keys != []
    requires forall i :: 0 <= i < |keys| ==> keys[i] in OperandKeys
    ensures Run(arith, Init, keys) == State(Join(keys), "", "", "C")
    ensures DisplayText(Run(arith, Init, keys)) == Join(keys)
  {
    TypingOperand(arith, Init, keys);
    assert "" + Join(keys) == Join(keys);
    OperandKeyIsOneChar(keys[0]);
    assert Join(keys) == keys[0] + Join(keys[1..]);
  }

  /** `AC` after any key sequence shows "0", and the state is the initial
      one except for the clear label. */
  lemma ClearAfterAnything(arith: Evaluator.Arithmetic, keys: seq<string>)
    ensures var s := Step(arith, Run(arith, Init, keys), "AC");
      DisplayText(s) == "0" && s.(clearLabel := "AC") == Init
  {
  }
}

