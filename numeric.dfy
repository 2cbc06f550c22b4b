/**
  `inverse_factorial` and `required_permutation_objects`: how many objects
  must permute together so that their permutations reach a required count.
 */
module Numeric {
  import opened Wrappers

  function Factorial(n: nat): (r: nat)
    ensures r >= 1
    decreases n
  {
    if n == 0 then 1 else n * Factorial(n - 1)
  }

  lemma {:induction false} FactorialMonotone(i: nat, j: nat)
    requires i <= j
    ensures Factorial(i) <= Factorial(j)
    decreases j - i
  {
    if i < j {
      FactorialMonotone(i, j - 1);
      assert Factorial(j) == j * Factorial(j - 1);
    }
  }

  /** `i` is the least positive integer whose factorial reaches `value`. */
  ghost predicate IsInverseFactorial(i: int, value: int) {
    && i >= 1
    && Factorial(i) >= value
    && forall j :: 1 <= j < i ==> Factorial(j) < value
  }

  /** There is only one least solution. */
  lemma InverseFactorialUnique(a: int, b: int, value: int)
    requires IsInverseFactorial(a, value) && IsInverseFactorial(b, value)
    ensures a == b
  {
  }

  /** Every factorial from the least solution on reaches `value`. */
  lemma InverseFactorialAbove(i: int, value: int, j: nat)
    requires IsInverseFactorial(i, value) && j >= i
    ensures Factorial(j) >= value
  {
    FactorialMonotone(i, j);
  }

  /** `inverse_factorial`: multiplies up `n = i!` until it reaches `value`. */
  method InverseFactorial(value: int) returns (i: int)
    ensures IsInverseFactorial(i, value)
    ensures value <= 1 ==> i == 1
  {
    var n := 1;
    i := 1;
    while n < value
      invariant i >= 1 && n == Factorial(i)
      invariant forall j :: 1 <= j < i ==> Factorial(j) < value
      decreases value - n
    {
      i := i + 1;
      n := n * i;
      assert n >= 2 * Factorial(i - 1);
    }
  }

  /** `math.floor(a / b)` on exact integers. */
  function FloorDiv(a: int, b: int): (q: int)
    requires b != 0
    ensures b > 0 ==> b * q <= a < b * q + b
    ensures b < 0 ==> b * q + b < a <= b * q
  {
    if b > 0 || a % b == 0 then a / b else a / b - 1
  }

  datatype NumericError =
    | NegativeFactorial                     // `math.factorial` of a negative `n`
    | DivisionByZero                        // a minimum permutation count of 0
    | TooFewObjects(n: int, minimum: int)   // the `ValueError` raised by the guard

  function Max(a: int, b: int): int {
    if a >= b then a else b
  }

  /**
    `required_permutation_objects(n, minimum)`: with `x = floor(n! / minimum)`,
    fails unless `n >= 1` and `x >= 1`, and otherwise returns
    `max(n - inverse_factorial(x), 1)`.
   */
  method RequiredPermutationObjects(n: int, minimum: int) returns (r: Result<int, NumericError>)
    ensures n < 0 ==> r == Failure(NegativeFactorial)
    ensures n >= 0 && minimum == 0 ==> r == Failure(DivisionByZero)
    ensures n >= 0 && minimum != 0 ==>
              (r.Failure? <==> n < 1 || FloorDiv(Factorial(n), minimum) < 1)
    ensures r.Failure? && n >= 0 && minimum != 0 ==> r == Failure(TooFewObjects(n, minimum))
    ensures r.Success? ==> exists k :: IsInverseFactorial(k, FloorDiv(Factorial(n), minimum)) && r.value == Max(n - k, 1)
    ensures r.Success? ==> 1 <= r.value <= Max(n - 1, 1)
  {
    if n < 0 {
      return Failure(NegativeFactorial);
    }
    if minimum == 0 {
      return Failure(DivisionByZero);
    }
    var x := FloorDiv(Factorial(n), minimum);
    if n < 1 || x < 1 {
      return Failure(TooFewObjects(n, minimum));
    }
    var i := InverseFactorial(x);
    r := Success(Max(n - i, 1));
  }

  /** A required count of at most `n!` never needs fewer than one object. */
  lemma RequiredObjectsExist(n: nat, minimum: int)
    requires n >= 1 && 1 <= minimum <= Factorial(n)
    ensures FloorDiv(Factorial(n), minimum) >= 1
  {
  }
}
