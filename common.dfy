// Shared vocabulary of the model: failure-compatible results, powers of two
// and Python's bit test on integers, and Python's decimal rendering of
// integers (`str(n)` and `int(s)` on plain digit strings).

module Common {

  /** The outcome of an operation that the source may abort with an exception. */
  datatype Result<+T, +E> = Ok(value: T) | Err(error: E) {
    predicate IsFailure() { Err? }

    function PropagateFailure<U>(): Result<U, E>
      requires Err?
    {
      Err(error)
    }

    function Extract(): T
      requires Ok?
    {
      value
    }
  }

  datatype Option<+T> = None | Some(value: T)

  // ---------------------------------------------------------------------
  // Powers of two and bits

  function Pow2(n: nat): (r: nat)
    ensures r >= 1
  {
    if n == 0 then 1 else 2 * Pow2(n - 1)
  }

  /** Python's `(1 << i) & x != 0`, for any integer `x` (two's complement of
      unbounded width: Dafny's `/` by a positive divisor rounds down, exactly
      like Python's `>>`). */
  predicate BitSet(x: int, i: nat)
  {
    (x / Pow2(i)) % 2 == 1
  }

  lemma DivModUnique(m: int, d: int, a: int, b: int)
    requires d > 0 && m == a * d + b && 0 <= b < d
    ensures m / d == a && m % d == b
  {
    var q, r := m / d, m % d;
    assert m == q * d + r;
    var x := a - q;
    assert x * d == r - b by {
      MulSub(a, q, d);
    }
    if x >= 1 {
      MulAtLeast(x, d);
    } else if x <= -1 {
      MulAtLeast(-x, d);
    }
  }

  lemma MulSub(a: int, q: int, d: int)
    ensures (a - q) * d == a * d - q * d
  {
  }

  lemma MulAtLeast(x: int, d: int)
    requires x >= 1 && d > 0
    ensures x * d >= d
  {
    assert x * d == (x - 1) * d + d;
  }

  /** Splitting off bit `n`: the low `n + 1` bits of `m` are its low `n` bits
      plus `2^n` when bit `n` is set. */
  lemma ModPow2Step(m: int, n: nat)
    ensures m % Pow2(n + 1) == m % Pow2(n) + (if BitSet(m, n) then Pow2(n) else 0)
  {
    var p := Pow2(n);
    var q, r := m / p, m % p;
    var h, b := q / 2, q % 2;
    assert q == 2 * h + b;
    assert m == q * p + r;
    assert m == h * (2 * p) + (b * p + r) by {
      assert q * p == (2 * h + b) * p == h * (2 * p) + b * p;
    }
    assert 0 <= b * p + r < 2 * p by {
      assert b == 0 || b == 1;
    }
    DivModUnique(m, 2 * p, h, b * p + r);
  }

  /** Bit `i` of `m` is bit `i` of `m`'s low `n` bits, for `i < n`. */
  lemma BitOfLowBits(m: int, n: nat, i: nat)
    requires i < n
    ensures BitSet(m % Pow2(n), i) == BitSet(m, i)
  {
    var p, kk := Pow2(i), Pow2(n - i - 1);
    PowAdd(i, n - i);
    assert Pow2(n) == p * (2 * kk);
    LowBitsParity(m, p, kk);
  }

  lemma LowBitsParity(m: int, p: int, kk: int)
    requires p > 0 && kk > 0
    ensures ((m % (p * (2 * kk))) / p) % 2 == (m / p) % 2
  {
    var big := p * (2 * kk);
    var q, r := m / big, m % big;
    var x := q * (2 * kk);
    assert m == x * p + r by {
      assert m == q * big + r;
      MulAssoc(q, 2 * kk, p);
    }
    DivAddMultiple(x, p, r);
    assert x == 2 * (q * kk);
    ModTwoShift(q * kk, r / p);
  }

  lemma MulAssoc(a: int, b: int, c: int)
    ensures a * (c * b) == (a * b) * c
  {
  }

  lemma DivAddMultiple(x: int, p: int, r: int)
    requires p > 0
    ensures (x * p + r) / p == x + r / p
  {
    var rq, rr := r / p, r % p;
    assert x * p + r == (x + rq) * p + rr;
    DivModUnique(x * p + r, p, x + rq, rr);
  }

  lemma ModTwoShift(a: int, b: int)
    ensures (2 * a + b) % 2 == b % 2
  {
    DivModUnique(2 * a + b, 2, a + b / 2, b % 2);
  }

  lemma PowAdd(a: nat, b: nat)
    ensures Pow2(a + b) == Pow2(a) * Pow2(b)
    decreases b
  {
    if b > 0 {
      PowAdd(a, b - 1);
      assert Pow2(a + b) == 2 * Pow2(a + b - 1);
    }
  }

  // ---------------------------------------------------------------------
  // Decimal text

  predicate IsDigit(c: char) { '0' <= c <= '9' }

  predicate AllDigits(s: string) { forall i :: 0 <= i < |s| ==> IsDigit(s[i]) }

  function DigitChar(d: nat): (c: char)
    requires d < 10
    ensures IsDigit(c)
  {
    ('0' as int + d) as char
  }

  function DigitValue(c: char): (d: nat)
    requires IsDigit(c)
    ensures d < 10
  {
    c as int - '0' as int
  }

  /** Python's `str(n)` for a non-negative integer: no sign, no leading zero. */
  function NatToDecimal(n: nat): (s: string)
    ensures |s| >= 1 && AllDigits(s)
    decreases n
  {
    if n < 10 then [DigitChar(n)] else NatToDecimal(n / 10) + [DigitChar(n % 10)]
  }

  /** Python's `str(i)` for any integer. */
  function IntToDecimal(i: int): string
  {
    if i < 0 then "-" + NatToDecimal(-i) else NatToDecimal(i)
  }

  /** The value of a string of decimal digits (leading zeros allowed). */
  function DecimalValue(s: string): nat
    requires AllDigits(s)
  {
    if s == [] then 0 else 10 * DecimalValue(s[..|s| - 1]) + DigitValue(s[|s| - 1])
  }

  lemma {:induction false} DecimalRoundTrip(n: nat)
    ensures DecimalValue(NatToDecimal(n)) == n
    decreases n
  {
    var s := NatToDecimal(n);
    if n >= 10 {
      DecimalRoundTrip(n / 10);
      assert s[..|s| - 1] == NatToDecimal(n / 10);
      assert DigitValue(s[|s| - 1]) == n % 10;
    } else {
      assert DigitValue(s[0]) == n;
    }
  }
}
