/** The calculator component of App.js as an object: the four state
    strings are fields that the key-press handler updates in place, the way
    the component's state setters do (`clearLabel` among them, although
    nothing reads it). Each method is proved against the
    pure transition function `Controller.Step`, so every property proved
    there holds of this object. */
module App {
  import Text
  import Evaluator
  import opened Controller

  class Calculator {
    var firstValue: string
    var operator: string
    var secondValue: string
    var clearLabel: string

    /** The number arithmetic `calculate` relies on. */
    const arith: Evaluator.Arithmetic

    /** The current state as a value. */
    function Snapshot(): State
      reads this
    {
      State(firstValue, operator, secondValue, clearLabel)
    }

    /** The invariant every key press keeps. */
    ghost predicate Valid()
      reads this
    {
      Inv(Snapshot())
    }

    /** The state at start: empty operands and operator, clear label "AC". */
    constructor (arith: Evaluator.Arithmetic)
      ensures Snapshot() == Init && Valid()
      ensures this.arith == arith
    {
      firstValue, operator, secondValue, clearLabel := "", "", "", "AC";
      this.arith := arith;
    }

    /** Evaluates `a o b` and makes the result the first operand, emptying
        the operator and the second operand; the clear label is kept. When
        the rounding step throws, `thrown` is set and no field changes. */
    method Calculate(a: string, o: string, b: string) returns (thrown: bool)
      modifies this
      ensures thrown == Evaluator.Evaluate(arith, a, o, b).None?
      ensures thrown ==> Snapshot() == old(Snapshot())
      ensures !thrown ==>
        && firstValue == Evaluator.Evaluate(arith, a, o, b).value
        && operator == "" && secondValue == "" && clearLabel == old(clearLabel)
      ensures old(Valid()) ==> Valid()
    {
      var x := Evaluator.Normalize(a);
      var y := Evaluator.Normalize(b);
      var result := Evaluator.Zero;
      var op := Evaluator.OperationOf(o);
      if op.Some? {
        result := arith(op.value, x, y);
      }
      var text := result.text;
      if !result.whole {
        var digits := Text.SecondField(text, '.');
        if digits.None? {
          // reading the length of an undefined field throws
          thrown := true;
          return;
        }
        if |digits.value| > 6 {
          text := result.fixed;
        }
      }
      text := Evaluator.Format(text);
      firstValue := text;
      operator := "";
      secondValue := "";
      thrown := false;
    }

    /** Handles one key press: the new state is `Step` of the old one, the
        invariant is kept, and `thrown` tells whether `calculate` threw. */
    method OnKeyPress(key: string) returns (thrown: bool)
      modifies this
      ensures Snapshot() == Step(arith, old(Snapshot()), key)
      ensures thrown == Throws(arith, old(Snapshot()), key)
      ensures old(Valid()) ==> Valid()
    {
      ghost var before := Snapshot();
      thrown := false;
      if key == "AC" {
        firstValue := "";
        operator := "";
        secondValue := "";
      } else if key == BackspaceKey {
        if secondValue != "" {
          secondValue := DropLast(secondValue);
        } else if operator != "" {
          operator := "";
        } else {
          firstValue := DropLast(firstValue);
        }
        clearLabel := "AC";
      } else if key == "%" {
        thrown := Calculate(firstValue, key, secondValue);
      } else if key in OperatorKeys {
        if secondValue != "" {
          thrown := Calculate(firstValue, operator, secondValue);
        } else {
          operator := key;
        }
      } else if key == "-" || key == "=" {
        thrown := Calculate(firstValue, operator, secondValue);
      } else if key in OperandKeys {
        clearLabel := "C";
        if operator == "" {
          firstValue := firstValue + key;
        } else {
          secondValue := secondValue + key;
        }
      }
      if Inv(before) {
        StepPreservesInv(arith, before, key);
      }
    }

    /** The text on the display, never empty. */
    function GetDisplayText(): (r: string)
      reads this
      ensures r != ""
    {
      DisplayText(Snapshot())
    }
  }
}
