/**
 * The integer and string primitives of primitives.py. Python integers are
 * unbounded, so `int` models them exactly; `//` and `%` are Python's
 * floor division and floor remainder, written out explicitly because Dafny's
 * own `/` and `%` are Euclidean.
 */
module Primitives {

  /** `int_add`; `Vertices.ApplyExact` states it on vertex arguments. */
  function IntAdd(x: int, y: int): int { x + y }

  /** `int_sub`; `Vertices.ApplyExact` states it on vertex arguments. */
  function IntSub(x: int, y: int): int { x - y }

  /** `int_mul`; `Vertices.ApplyExact` states it on vertex arguments. */
  function IntMul(x: int, y: int): int { x * y }

  /** `int_neg`; `Vertices.ApplyExact` states it on vertex arguments. */
  function IntNeg(x: int): int { -x }

  /** `x // y if y != 0 else 0`: floor division, with 0 for a zero divisor. */
  function IntDiv(x: int, y: int): (q: int)
    ensures y == 0 ==> q == 0
    ensures y > 0 ==> y * q <= x < y * q + y
    ensures y < 0 ==> y * q + y < x <= y * q
  {
    if y == 0 then 0
    else if y > 0 || x % y == 0 then x / y
    else x / y - 1
  }

  /** `x % y`: the remainder takes the sign of the divisor; a zero divisor raises. */
  function IntMod(x: int, y: int): (r: int)
    requires y != 0
    ensures y > 0 ==> 0 <= r < y
    ensures y < 0 ==> y < r <= 0
  {
    if y > 0 || x % y == 0 then x % y else x % y + y
  }

  /** Python's division identity: `(x // y) * y + x % y == x`. */
  lemma DivModIdentity(x: int, y: int)
    requires y != 0
    ensures IntAdd(IntMul(IntDiv(x, y), y), IntMod(x, y)) == x
  {
    if y < 0 && x % y != 0 {
      calc {
        IntMul(IntDiv(x, y), y) + IntMod(x, y);
        (x / y - 1) * y + (x % y + y);
        { assert (x / y - 1) * y == (x / y) * y - y; }
        (x / y) * y + x % y;
      }
    }
  }

  /**
   * Python's `//` and `%` against Dafny's Euclidean `/` and `%`: they agree
   * exactly when the divisor is positive or divides `x`; otherwise the
   * quotient is one less and the remainder one divisor more.
   */
  lemma FloorVersusEuclid(x: int, y: int)
    requires y != 0
    ensures IntDiv(x, y) == x / y <==> y > 0 || x % y == 0
    ensures IntMod(x, y) == x % y <==> y > 0 || x % y == 0
    ensures y < 0 && x % y != 0 ==> IntDiv(x, y) == x / y - 1 && IntMod(x, y) == x % y + y
  {
  }

  /** Dividing an exact multiple by a non-zero factor recovers the other factor. */
  lemma IntDivUndoesMul(x: int, y: int)
    requires y != 0
    ensures IntDiv(IntMul(x, y), y) == x
    ensures IntMod(IntMul(x, y), y) == 0
  {
    var p := IntMul(x, y);
    QuotientUnique(p, y, IntDiv(p, y), x);
    DivModIdentity(p, y);
  }

  /** Only one integer satisfies the bounds `IntDiv` promises for its quotient. */
  lemma QuotientUnique(p: int, y: int, q: int, x: int)
    requires y != 0
    requires y > 0 ==> y * q <= p < y * q + y
    requires y < 0 ==> y * q + y < p <= y * q
    requires p == x * y
    ensures q == x
  {
    if q < x {
      MulMonotone(y, q + 1, x);
    } else if x < q {
      MulMonotone(y, x + 1, q);
    }
  }

  /** Multiplying by a positive factor keeps the order, by a negative one reverses it. */
  lemma MulMonotone(y: int, a: int, b: int)
    requires a <= b
    ensures y > 0 ==> y * a <= y * b
    ensures y < 0 ==> y * a >= y * b
  {
    assert y * b - y * a == y * (b - a);
  }

  function StrConcat(a: string, b: string): (r: string)
    ensures |r| == |a| + |b|
    ensures r[..|a|] == a && r[|a|..] == b
  {
    a + b
  }

  /** `s * n`: `s` repeated `n` times, empty when `n <= 0`. */
  function StrRepeat(s: string, n: int): (r: string)
    ensures n <= 0 ==> r == ""
    decreases n
  {
    if n <= 0 then "" else StrRepeat(s, n - 1) + s
  }

  function StrLength(s: string): nat { |s| }

  /** `s[::-1]`. */
  function StrFlip(s: string): (r: string)
    ensures |r| == |s|
    ensures forall i :: 0 <= i < |s| ==> r[i] == s[|s| - 1 - i]
  {
    if |s| == 0 then "" else StrFlip(s[1..]) + [s[0]]
  }

  /** A repetition has `|s| * max(n, 0)` characters, the k-th being `s[k % |s|]`. */
  lemma {:induction false} StrRepeatContents(s: string, n: int)
    ensures |StrRepeat(s, n)| == |s| * (if n <= 0 then 0 else n)
    ensures forall k :: 0 <= k < |StrRepeat(s, n)| ==> StrRepeat(s, n)[k] == s[k % |s|]
    decreases n
  {
    if n > 0 {
      StrRepeatContents(s, n - 1);
      var prev := StrRepeat(s, n - 1);
      assert |prev| == |s| * (n - 1);
      forall k | 0 <= k < |StrRepeat(s, n)|
        ensures StrRepeat(s, n)[k] == s[k % |s|]
      {
        if k >= |prev| {
          var j := k - |prev|;
          assert k == |s| * (n - 1) + j && 0 <= j < |s|;
          ModOfMultiplePlus(|s|, n - 1, j);
        }
      }
    }
  }

  lemma ModOfMultiplePlus(m: nat, q: nat, j: nat)
    requires j < m
    ensures (m * q + j) % m == j
  {
    var k := m * q + j;
    var d, r := k / m, k % m;
    assert m * d + r == m * q + j;
    if d > q {
      MulAtLeast(m, d - q);
    } else if d < q {
      MulAtLeast(m, q - d);
    }
  }

  lemma MulAtLeast(m: nat, k: int)
    requires k >= 1
    ensures m * k >= m
  {
    assert m * k == m + m * (k - 1);
  }

  /** Reversing twice gives back the original string. */
  lemma StrFlipInvolution(s: string)
    ensures StrFlip(StrFlip(s)) == s
  {
  }

  /** `len` counts characters: it adds up over concatenation and is kept by reversal and repetition. */
  lemma StrLengthLaws(a: string, b: string, n: int)
    ensures StrLength(StrConcat(a, b)) == StrLength(a) + StrLength(b)
    ensures StrLength(StrFlip(a)) == StrLength(a)
    ensures StrLength(StrRepeat(a, n)) == StrLength(a) * (if n <= 0 then 0 else n)
  {
    StrRepeatContents(a, n);
  }
}
