/** The firmware's fixed-width integer types and operators, written out over
    Dafny's unbounded `int`.

    Rust's `+`, `-` and `*` wrap around in a release build, and `<<` never
    checks for lost bits, so each such operation of the firmware is wrapped
    explicitly here. Rust's `>>` on a signed value is an arithmetic shift
    (floor division by a power of two) and its `/` truncates toward zero;
    Dafny's `/` is Euclidean, so both get their own helper. */
module FixedWidth {

  type Byte = x: int | 0 <= x < 0x100
  type U16 = x: int | 0 <= x < 0x1_0000
  type I16 = x: int | -0x8000 <= x < 0x8000
  type I32 = x: int | -0x8000_0000 <= x < 0x8000_0000
  type I64 = x: int | -0x8000_0000_0000_0000 <= x < 0x8000_0000_0000_0000
  type U64 = x: int | 0 <= x < 0x1_0000_0000_0000_0000

  const TwoTo32: int := 0x1_0000_0000
  const TwoTo64: int := 0x1_0000_0000_0000_0000

  function Pow2(k: nat): (r: nat)
    ensures r >= 1
  {
    if k == 0 then 1 else 2 * Pow2(k - 1)
  }

  /** The powers of two the compensation formulas shift by. */
  lemma Pow2Table()
    ensures Pow2(3) == 0x8
    ensures Pow2(4) == 0x10
    ensures Pow2(8) == 0x100
    ensures Pow2(11) == 0x800
    ensures Pow2(12) == 0x1000
    ensures Pow2(13) == 0x2000
    ensures Pow2(14) == 0x4000
    ensures Pow2(17) == 0x20000
    ensures Pow2(19) == 0x80000
    ensures Pow2(25) == 0x2000000
    ensures Pow2(31) == 0x80000000
    ensures Pow2(33) == 0x200000000
    ensures Pow2(35) == 0x800000000
    ensures Pow2(47) == 0x800000000000
  {
  }

  function Abs(x: int): (a: nat) {
    if x < 0 then -x else x
  }

  /** The value an `i32` holds after a wrapping operation whose exact result is `x`. */
  function WrapI32(x: int): (r: I32)
    ensures (r - x) % TwoTo32 == 0
    ensures -0x8000_0000 <= x < 0x8000_0000 ==> r == x
  {
    (x + 0x8000_0000) % TwoTo32 - 0x8000_0000
  }

  /** The value an `i64` holds after a wrapping operation whose exact result is `x`. */
  function WrapI64(x: int): (r: I64)
    ensures (r - x) % TwoTo64 == 0
    ensures -0x8000_0000_0000_0000 <= x < 0x8000_0000_0000_0000 ==> r == x
  {
    (x + 0x8000_0000_0000_0000) % TwoTo64 - 0x8000_0000_0000_0000
  }

  /** The value a `u64` holds after a wrapping operation whose exact result is `x`. */
  function WrapU64(x: int): (r: U64)
    ensures (r - x) % TwoTo64 == 0
    ensures 0 <= x < TwoTo64 ==> r == x
  {
    x % TwoTo64
  }

  /** Arithmetic shift right, `x >> k` on a signed integer: rounds toward
      negative infinity and never leaves the sign or the range of `x`. */
  function Sar(x: int, k: nat): (r: int)
    ensures r * Pow2(k) <= x < (r + 1) * Pow2(k)
    ensures x >= 0 ==> 0 <= r <= x
    ensures x < 0 ==> x <= r < 0
  {
    FloorDivBounds(x, Pow2(k));
    x / Pow2(k)
  }

  lemma FloorDivBounds(x: int, p: int)
    requires p >= 1
    ensures (x / p) * p <= x < (x / p + 1) * p
    ensures x >= 0 ==> 0 <= x / p <= x
    ensures x < 0 ==> x <= x / p < 0
  {
    var q, m := x / p, x % p;
    assert x == q * p + m && 0 <= m < p;
    assert (q + 1) * p == q * p + p;
    if x >= 0 {
      ProductSign(q + 1, p);
      MulMono(1, p, q);
    } else {
      ProductSign(q, p);
      MulMono(q + 1, 0, p - 1);
      assert (q + 1) * (p - 1) == q * (p - 1) + p - 1;
      assert x - q == q * (p - 1) + m;
    }
  }

  lemma MulMono(a: int, b: int, c: int)
    requires a <= b && c >= 0
    ensures a * c <= b * c
  {
    assert b * c - a * c == (b - a) * c;
  }

  lemma ProductSign(a: int, p: int)
    requires p >= 1
    ensures a * p > 0 ==> a > 0
    ensures a * p < 0 ==> a < 0
  {
    if a <= 0 {
      MulMono(a, 0, p);
    } else {
      MulMono(0, a, p);
    }
  }

  /** Quotient and remainder are unique: `x == q * d + r` with `0 <= r < d`
      pins down `x / d` and `x % d`. */
  lemma DivisionUnique(x: int, d: int, q: int, r: int)
    requires d > 0 && 0 <= r < d && x == q * d + r
    ensures x / d == q && x % d == r
  {
    var q', r' := x / d, x % d;
    assert x == q' * d + r';
    assert (q - q') * d == r' - r by {
      assert (q - q') * d == q * d - q' * d;
    }
    if q > q' {
      MulMono(1, q - q', d);
    } else if q < q' {
      assert (q' - q) * d == r - r';
      MulMono(1, q' - q, d);
    }
  }

  /** Integer division truncating toward zero, Rust's `/` on `i64`: the
      quotient of the magnitudes, negative exactly when the operands' signs
      differ. */
  function TruncDiv(n: int, d: int): (q: int)
    requires d != 0
    ensures Abs(q) == Abs(n) / Abs(d)
    ensures q != 0 ==> (q > 0 <==> (n > 0 <==> d > 0))
  {
    var m := Abs(n) / Abs(d);
    assert n == 0 ==> m == 0;
    if (n >= 0) == (d > 0) then m else -m
  }

  /** The remainder `TruncDiv` leaves is smaller than the divisor and takes
      the sign of the dividend. */
  lemma TruncDivTruncates(n: int, d: int)
    requires d != 0
    ensures Abs(n - TruncDiv(n, d) * d) < Abs(d)
    ensures n - TruncDiv(n, d) * d == 0 || (n - TruncDiv(n, d) * d > 0 <==> n > 0)
  {
  }

  /** Dividing by `a` and then by `b` is dividing by `a * b`. */
  lemma DivDiv(x: int, a: int, b: int)
    requires a > 0 && b > 0
    ensures x / a / b == x / (a * b)
  {
    var q1, r1 := x / a, x % a;
    var q2, r2 := q1 / b, q1 % b;
    assert x == q2 * (a * b) + (r2 * a + r1) by {
      assert x == q1 * a + r1;
      assert q1 == q2 * b + r2;
      assert q1 * a == q2 * (a * b) + r2 * a;
    }
    assert r2 * a + r1 < a * b by {
      MulMono(r2, b - 1, a);
      assert (b - 1) * a == a * b - a;
    }
    assert 0 <= r2 * a by {
      MulMono(0, r2, a);
    }
    DivisionUnique(x, a * b, q2, r2 * a + r1);
  }
}

/** The error values of the firmware's `Result`s (`EspError` codes). */
module SensorResult {

  datatype Error =
    | BusFault    // an I2C or GPIO driver call failed
    | Timeout     // ESP_ERR_TIMEOUT: a DHT11 edge did not arrive in time
    | InvalidCrc  // ESP_ERR_INVALID_CRC: DHT11 checksum mismatch

  datatype Result<+T> = Ok(value: T) | Err(error: Error)
}
