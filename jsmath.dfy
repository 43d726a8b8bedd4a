/** `Math.max`, `Math.min` and `Math.ceil` of a quotient, on integers. */
module JsMath {

  function Max(a: int, b: int): (r: int)
    ensures r >= a && r >= b && (r == a || r == b)
  {
    if a >= b then a else b
  }

  function Min(a: int, b: int): (r: int)
    ensures r <= a && r <= b && (r == a || r == b)
  {
    if a <= b then a else b
  }

  /** `Math.ceil(a / b)` for a positive divisor, in integer arithmetic. */
  function CeilDiv(a: int, b: int): (r: int)
    requires b > 0
    ensures b * (r - 1) < a <= b * r
  {
    var q := (-a) / b;
    assert -a == b * q + (-a) % b;
    -q
  }
}
