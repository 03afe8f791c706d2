/**
 * The calculator widget: a display string and three control fields (the
 * stored first operand, the pending operator, and whether the next digit
 * starts the second operand) stepped by the digit, decimal point, clear,
 * operator and equals buttons.
 *
 * Numbers are JavaScript doubles. Their parsing, arithmetic and printing are
 * not modelled: class Calculator is generic in the number type N and takes
 * those operations as a FloatOps<N> record of functions.
 */
module Calculator {
  import opened Optional

  /** `parseFloat`, the four double operations and `String(number)`, uninterpreted. */
  datatype FloatOps<!N> = FloatOps(
    parseFloat: string -> N,
    add: (N, N) -> N,
    subtract: (N, N) -> N,
    multiply: (N, N) -> N,
    divide: (N, N) -> N,
    toString: N -> string)

  /** The switch on the operator symbol; an unknown symbol yields the second operand. */
  function Calculate<N>(ops: FloatOps<N>, first: N, second: N, operator: string): (r: N)
    ensures operator !in {"+", "-", "*", "/"} ==> r == second
  {
    if operator == "+" then ops.add(first, second)
    else if operator == "-" then ops.subtract(first, second)
    else if operator == "*" then ops.multiply(first, second)
    else if operator == "/" then ops.divide(first, second)
    else second
  }

  /** The number of occurrences of `c` in `s`. */
  function Count(s: string, c: char): (n: nat)
    ensures n == 0 <==> c !in s
    ensures n <= |s|
  {
    if s == [] then 0 else Count(s[..|s| - 1], c) + (if s[|s| - 1] == c then 1 else 0)
  }

  /** JavaScript truthiness of a `string | null`: `null` and `""` are falsy, every other string truthy. */
  predicate Truthy(operator: Option<string>)
    ensures operator == None ==> !Truthy(operator)
    ensures operator == Some("") ==> !Truthy(operator)
    ensures operator.Some? && |operator.value| > 0 ==> Truthy(operator)
  {
    operator.Some? && operator.value != ""
  }

  class Calculator<N> {
    const ops: FloatOps<N>
    var display: string
    var firstOperand: Option<N>
    var operator: Option<string>
    var waitingForSecondOperand: bool

    /**
     * The control fields' invariant: the calculator only waits for a second
     * operand after an operator was chosen, and an operator is only pending
     * once a first operand is stored.
     */
    ghost predicate Valid()
      reads this
    {
      && (waitingForSecondOperand ==> operator.Some?)
      && (operator.Some? ==> firstOperand.Some?)
    }

    /** The state at mount and after Clear: "0", no operand, no operator, not waiting. */
    predicate IsInitial()
      reads this
    {
      display == "0" && firstOperand == None && operator == None && !waitingForSecondOperand
    }

    constructor (ops: FloatOps<N>)
      ensures this.ops == ops
      ensures Valid() && IsInitial()
    {
      this.ops := ops;
      display := "0";
      firstOperand := None;
      operator := None;
      waitingForSecondOperand := false;
    }

    /**
     * A digit starts a new display when the second operand is awaited,
     * replaces a lone "0", and is appended otherwise.
     */
    method InputDigit(digit: string)
      requires Valid()
      modifies this
      ensures Valid()
      ensures firstOperand == old(firstOperand) && operator == old(operator)
      ensures !waitingForSecondOperand
      ensures old(waitingForSecondOperand) ==> display == digit
      ensures !old(waitingForSecondOperand) && old(display) == "0" ==> display == digit
      ensures !old(waitingForSecondOperand) && old(display) != "0" ==> display == old(display) + digit
    {
      if waitingForSecondOperand {
        display := digit;
        waitingForSecondOperand := false;
      } else {
        display := if display == "0" then digit else display + digit;
      }
    }

    /**
     * The decimal point starts "0." when the second operand is awaited, and is
     * otherwise appended unless the display already holds one.
     */
    method InputDecimal()
      requires Valid()
      modifies this
      ensures Valid()
      ensures firstOperand == old(firstOperand) && operator == old(operator)
      ensures !waitingForSecondOperand
      ensures '.' in display
      ensures Count(old(display), '.') <= 1 ==> Count(display, '.') == 1
      ensures old(waitingForSecondOperand) ==> display == "0."
      ensures !old(waitingForSecondOperand) && '.' in old(display) ==> display == old(display)
      ensures !old(waitingForSecondOperand) && '.' !in old(display) ==> display == old(display) + "."
    {
      if waitingForSecondOperand {
        display := "0.";
        waitingForSecondOperand := false;
        return;
      }
      if '.' !in display {
        display := display + ".";
      }
    }

    method ClearDisplay()
      modifies this
      ensures Valid() && IsInitial()
    {
      display := "0";
      firstOperand := None;
      operator := None;
      waitingForSecondOperand := false;
    }

    /**
     * An operator button. With no stored operand the display's value is
     * stored; with a stored operand and a pending (truthy) operator the
     * pending operation is carried out and shown; with a stored operand and
     * no pending operator nothing is computed. In every case the calculator
     * then waits for a second operand for `nextOperator`.
     */
    method HandleOperator(nextOperator: string)
      requires Valid()
      modifies this
      ensures Valid()
      ensures waitingForSecondOperand && operator == Some(nextOperator)
      ensures old(firstOperand).None? ==>
        firstOperand == Some(ops.parseFloat(old(display))) && display == old(display)
      ensures old(firstOperand).Some? && Truthy(old(operator)) ==>
        var result := Calculate(ops, old(firstOperand).value, ops.parseFloat(old(display)), old(operator).value);
        firstOperand == Some(result) && display == ops.toString(result)
      ensures old(firstOperand).Some? && !Truthy(old(operator)) ==>
        firstOperand == old(firstOperand) && display == old(display)
    {
      var inputValue := ops.parseFloat(display);
      if firstOperand == None {
        firstOperand := Some(inputValue);
      } else if Truthy(operator) {
        var result := Calculate(ops, firstOperand.value, inputValue, operator.value);
        display := ops.toString(result);
        firstOperand := Some(result);
      }
      waitingForSecondOperand := true;
      operator := Some(nextOperator);
    }

    /**
     * The equals button. Without a stored operand or a pending operator it
     * does nothing; otherwise it shows and stores the result and leaves no
     * operator pending and nothing awaited.
     */
    method PerformCalculation()
      requires Valid()
      modifies this
      ensures Valid()
      ensures old(firstOperand).None? || old(operator).None? ==>
        display == old(display) && firstOperand == old(firstOperand) && operator == old(operator)
        && waitingForSecondOperand == old(waitingForSecondOperand)
      ensures old(firstOperand).Some? && old(operator).Some? ==>
        var result := Calculate(ops, old(firstOperand).value, ops.parseFloat(old(display)), old(operator).value);
        && display == ops.toString(result) && firstOperand == Some(result)
        && operator == None && !waitingForSecondOperand
    {
      if firstOperand == None || operator == None {
        return;
      }
      var inputValue := ops.parseFloat(display);
      var result := Calculate(ops, firstOperand.value, inputValue, operator.value);
      display := ops.toString(result);
      firstOperand := Some(result);
      operator := None;
      waitingForSecondOperand := false;
    }
  }
}
