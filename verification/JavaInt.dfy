/** Java's 32-bit `int` arithmetic, written out over Dafny's unbounded integers:
    two's-complement wrap-around, division truncating toward zero, and
    Math.abs, which returns Integer.MIN_VALUE unchanged. */
module JavaInt {

  const MinInt: int := -0x8000_0000
  const MaxInt: int := 0x7FFF_FFFF
  const Modulus: int := 0x1_0000_0000

  /** The values a Java `int` can hold. */
  type Int32 = x: int | MinInt <= x <= MaxInt

  /** The mathematical absolute value. */
  function Abs(x: int): nat
  {
    if x < 0 then -x else x
  }

  /** Reduces an exact result to the Java `int` with the same low 32 bits. */
  function Wrap(x: int): (r: Int32)
    ensures (x - r) % Modulus == 0
    ensures MinInt <= x <= MaxInt ==> r == x
  {
    (x - MinInt) % Modulus + MinInt
  }

  /** Java `int` multiplication: the exact product, wrapped. */
  function Mul(a: Int32, b: Int32): Int32
  {
    Wrap(a * b)
  }

  /** Java's `/`: the quotient truncated toward zero (Dafny's own `/` is Euclidean). */
  function Div(a: int, b: int): (q: int)
    requires b != 0
    ensures Abs(q) == Abs(a) / Abs(b)
    ensures q != 0 ==> ((q > 0) <==> ((a > 0) == (b > 0)))
  {
    var m := Abs(a) / Abs(b);
    QuotientPositive(Abs(a), Abs(b));
    if (a >= 0) == (b > 0) then m else -m
  }

  /** A positive Euclidean quotient needs a positive dividend. */
  lemma QuotientPositive(n: nat, d: nat)
    requires d > 0
    ensures n / d >= 0
    ensures n / d > 0 ==> n > 0
  {
    if n == 0 {
      assert n / d == 0;
    }
  }

  /** Java's Math.abs on an `int`: exact except that Integer.MIN_VALUE has no
      positive counterpart and comes back unchanged (still negative). */
  function JavaAbs(x: Int32): (r: Int32)
    ensures x != MinInt ==> r == Abs(x)
    ensures x == MinInt ==> r < 0
  {
    if x == MinInt then MinInt else Abs(x)
  }

  /** Truncating division is odd in its dividend: (-a)/b == -(a/b). */
  lemma DivNegate(a: int, b: int)
    requires b != 0
    ensures Div(-a, b) == -Div(a, b)
  {
  }

  /** On non-negative operands truncating and Euclidean division agree. */
  lemma DivNonNegative(a: int, b: int)
    requires a >= 0 && b > 0
    ensures Div(a, b) == a / b
  {
  }

  /** Truncating division by a positive divisor is monotone in the dividend. */
  lemma {:induction false} DivMonotone(a: int, a': int, b: int)
    requires a <= a' && b > 0
    ensures Div(a, b) <= Div(a', b)
  {
    if a >= 0 {
      DivEuclidMonotone(a, a', b);
    } else if a' <= 0 {
      DivEuclidMonotone(-a', -a, b);
    } else {
      assert Div(a, b) <= 0 <= Div(a', b);
    }
  }

  lemma DivEuclidMonotone(a: nat, a': nat, b: int)
    requires a <= a' && b > 0
    ensures a / b <= a' / b
  {
    var q, q' := a / b, a' / b;
    assert q * b <= a < q * b + b;
    assert q' * b <= a' < q' * b + b;
    if q > q' {
      MulMonotone(q' + 1, q, b);
      assert false;
    }
  }

  lemma MulMonotone(m: int, n: int, b: int)
    requires m <= n && b > 0
    ensures m * b <= n * b
  {
  }
}
