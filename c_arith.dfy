/** The C semantics of the `int` arithmetic the compensation formulas use, on a
    32-bit `int`. Signed overflow and division by zero are undefined behaviour in
    C; here they yield the explicit outcome `Undefined`. */
module CArith {

  const IntMin: int := -0x8000_0000
  const IntMax: int := 0x7FFF_FFFF

  predicate IsInt32(x: int) { IntMin <= x <= IntMax }

  /** The outcome of evaluating a C expression: a value, or undefined behaviour. */
  datatype Eval<T> = Defined(value: T) | Undefined {
    predicate IsFailure() { Undefined? }
    function PropagateFailure<U>(): Eval<U> requires Undefined? { Undefined }
    function Extract(): T requires Defined? { value }
  }

  /** A mathematical result stored into `int`: defined only when it fits. */
  function Fit(x: int): (r: Eval<int>)
    ensures r.Defined? <==> IsInt32(x)
    ensures r.Defined? ==> r.value == x
  {
    if IsInt32(x) then Defined(x) else Undefined
  }

  function Add(a: int, b: int): Eval<int> { Fit(a + b) }
  function Sub(a: int, b: int): Eval<int> { Fit(a - b) }
  function Mul(a: int, b: int): Eval<int> { Fit(a * b) }

  function Pow2(n: nat): (p: nat)
    ensures p >= 1
  {
    if n == 0 then 1 else 2 * Pow2(n - 1)
  }

  /** `x << n` read as multiplication by 2^n (what the compilers the driver is
      built with do); a result outside `int` is undefined. */
  function Shl(x: int, n: nat): (r: Eval<int>)
    ensures r.Defined? <==> IsInt32(x * Pow2(n))
    ensures r.Defined? ==> r.value == x * Pow2(n)
    ensures r.Defined? ==> Asr(r.value, n) == x
  {
    ShiftBack(x, n);
    Fit(x * Pow2(n))
  }

  /** Shifting a value left and then arithmetically right gives it back. */
  lemma {:induction false} ShiftBack(x: int, n: nat)
    ensures Asr(x * Pow2(n), n) == x
  {
    AsrBounds(x * Pow2(n), n, x, x);
  }

  /** `x >> n` on a signed `int`: an arithmetic shift, i.e. the floor of x / 2^n,
      also for negative `x`. */
  function Asr(x: int, n: nat): (r: int)
    ensures r * Pow2(n) <= x < (r + 1) * Pow2(n)
    ensures IsInt32(x) ==> IsInt32(r)
  {
    x / Pow2(n)
  }

  /** Shifting right by `n` keeps bounds that are multiples of 2^n. */
  lemma {:induction false} AsrBounds(x: int, n: nat, lo: int, hi: int)
    requires lo * Pow2(n) <= x <= hi * Pow2(n)
    ensures lo <= Asr(x, n) <= hi
  {
    var p, r := Pow2(n), Asr(x, n);
    assert (r - hi) * p == r * p - hi * p;
    FactorSign(r - hi, p);
    assert (r + 1 - lo) * p == (r + 1) * p - lo * p;
    FactorSign(r + 1 - lo, p);
  }

  /** A product with a positive factor has the sign of the other factor. */
  lemma {:induction false} FactorSign(a: int, b: int)
    requires b >= 1
    ensures a * b <= 0 ==> a <= 0
    ensures a * b > 0 ==> a >= 1
  {
  }

  /** C's `/`: the quotient truncated toward zero (C99 6.5.5), characterised by
      `a == q * b + rem` with the remainder smaller than `b` in magnitude and never
      of the opposite sign to `a`. */
  function CDiv(a: int, b: int): (q: int)
    requires b != 0
    ensures var rem := a - q * b;
      (if rem < 0 then -rem else rem) < (if b < 0 then -b else b) &&
      (a >= 0 ==> rem >= 0) && (a <= 0 ==> rem <= 0)
  {
    if a >= 0 && b > 0 then a / b
    else if a >= 0 then -(a / -b)
    else if b > 0 then -((-a) / b)
    else (-a) / (-b)
  }

  /** C's `/` on `int`: undefined for a zero divisor and for INT_MIN / -1. */
  function Div(a: int, b: int): (r: Eval<int>)
    ensures r.Defined? <==> b != 0 && IsInt32(if b != 0 then CDiv(a, b) else 0)
    ensures r.Defined? ==> b != 0 && r.value == CDiv(a, b)
  {
    if b == 0 then Undefined else Fit(CDiv(a, b))
  }
}
