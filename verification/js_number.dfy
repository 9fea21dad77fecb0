/**
 * JavaScript number operations used by the gallery, on mathematical integers.
 * Dafny's `%` is Euclidean; JavaScript's `%` truncates toward zero, so the
 * remainder takes the sign of the dividend. A negative zero result is the
 * integer 0 here: `Set` membership (SameValueZero) and array indexing do not
 * distinguish `-0` from `0`.
 */
module JsNumber {

  function Abs(x: int): (r: nat)
    ensures r == x || r == -x
  {
    if x < 0 then -x else x
  }

  function RealAbs(x: real): (r: real)
    ensures r >= 0.0 && (r == x || r == -x)
  {
    if x < 0.0 then -x else x
  }

  function Min(a: int, b: int): (r: int)
    ensures r <= a && r <= b && (r == a || r == b)
  {
    if a <= b then a else b
  }

  /** JavaScript `a % b` for integer operands. */
  function JsRem(a: int, b: int): (r: int)
    requires b != 0
    ensures Abs(r) < Abs(b)
    ensures a >= 0 ==> 0 <= r
    ensures a <= 0 ==> r <= 0
    ensures (a - r) % Abs(b) == 0
  {
    var m := Abs(a) % Abs(b);
    TruncatedQuotient(a, b);
    if a >= 0 then m else -m
  }

  /** The magnitude of the dividend minus its remainder is a multiple of the divisor. */
  lemma TruncatedQuotient(a: int, b: int)
    requires b != 0
    ensures (a - (if a >= 0 then Abs(a) % Abs(b) else -(Abs(a) % Abs(b)))) % Abs(b) == 0
  {
    var n := Abs(b);
    var q := Abs(a) / n;
    assert Abs(a) == n * q + Abs(a) % n;
    if a >= 0 {
      assert a - Abs(a) % n == n * q;
      MultipleMod(n, q);
    } else {
      assert a + Abs(a) % n == n * (-q);
      MultipleMod(n, -q);
    }
  }

  lemma MultipleMod(n: int, k: int)
    requires n > 0
    ensures (n * k) % n == 0
  {
    ModUnique(n * k, n, k, 0);
  }

  /** Euclidean division is unique: a quotient and an in-range remainder determine `%`. */
  lemma ModUnique(x: int, t: int, q: int, r: int)
    requires t > 0 && 0 <= r < t && x == t * q + r
    ensures x % t == r
  {
    var d := x / t - q;
    assert t * d + x % t == r;
    if d > 0 {
      assert false;
    } else if d < 0 {
      assert false;
    }
  }

  /** On a non-negative dividend and a positive divisor the JavaScript remainder is Dafny's. */
  lemma {:induction false} JsRemNonNegative(a: int, b: int)
    requires a >= 0 && b > 0
    ensures JsRem(a, b) == a % b
  {
  }
}
