/** Result types and the rounding rules that several components share. */
module Core {

  datatype Option<+T> = None | Some(value: T)

  /** A value, or the exception the source raises. */
  datatype Result<+T, +E> = Ok(value: T) | Err(error: E) {
    predicate IsFailure() {
      Err?
    }

    function PropagateFailure<U>(): Result<U, E>
      requires Err?
    {
      Err(error)
    }

    function Extract(): T
      requires Ok?
    {
      value
    }
  }

  function Min(a: int, b: int): int {
    if a <= b then a else b
  }

  function Max(a: int, b: int): int {
    if a >= b then a else b
  }

  function MinReal(a: real, b: real): real {
    if a <= b then a else b
  }

  function MaxReal(a: real, b: real): real {
    if a >= b then a else b
  }

  function Abs(x: real): real {
    if x >= 0.0 then x else -x
  }

  /** Nearest integer, ties to even: Python's round and ROUND_HALF_EVEN. */
  function HalfEven(x: real): (r: int)
    ensures -0.5 <= x - r as real <= 0.5
    ensures x - r as real == 0.5 || x - r as real == -0.5 ==> r % 2 == 0
  {
    var low := x.Floor;
    var part := x - low as real;
    if part < 0.5 then low
    else if part > 0.5 then low + 1
    else if low % 2 == 0 then low
    else low + 1
  }

  /** Nearest integer, ties away from zero: ROUND_HALF_UP. */
  function HalfUp(x: real): (r: int)
    ensures -0.5 <= x - r as real <= 0.5
    ensures x >= 0.0 ==> x < r as real + 0.5
    ensures x <= 0.0 ==> x > r as real - 0.5
  {
    if x >= 0.0 then (x + 0.5).Floor else -(0.5 - x).Floor
  }

  /** round(x, 4) and round(x, 8) and the 12-place quantize step. */
  function RoundTo(x: real, scale: real): real
    requires scale > 0.0
  {
    HalfEven(x * scale) as real / scale
  }

  /** A product kept behind a name, so that a proof can set its arithmetic aside. */
  function Times(x: real, y: real): (r: real)
    ensures x > 0.0 && y > 0.0 ==> r > 0.0
  {
    x * y
  }

  lemma OverItself(x: real)
    requires x != 0.0
    ensures x / x == 1.0
  {
  }

  lemma {:induction false} SubsetSize<T>(part: set<T>, whole: set<T>)
    requires part <= whole
    ensures |part| <= |whole|
  {
    if x :| x in part {
      SubsetSize(part - {x}, whole - {x});
    }
  }

  /** Elements from the back: Python's xs[-count:], the whole list when it is shorter. */
  function LastN<T>(xs: seq<T>, count: nat): seq<T> {
    if |xs| <= count then xs else xs[|xs| - count..]
  }
}
